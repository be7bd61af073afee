/** The scheduler's choice: oldest first among all sessions, and strictly in acceptance order within one. */
module Scheduler {
  import opened Common
  import opened Lifecycle
  import opened Authority
  import opened Runs
  import opened Interference

  /** When each command was created; fixed when it is accepted. */
  type Times = CommandId -> int

  /** A prepared controlled restart: until it is active nothing is claimed, and then only its own command. */
  datatype Restart = Restart(session: SessionId, command: CommandId, active: bool)

  predicate Barred(hold: Option<Restart>) {
    hold.Some? && !hold.value.active
  }

  /** The order of the candidates: creation time, session, ordinal, command id. */
  predicate Before(w: World, times: Times, c: CommandId, d: CommandId)
    requires c in w.commands && d in w.commands
  {
    var r, s := w.commands[c], w.commands[d];
    if times(c) != times(d) then times(c) < times(d)
    else if r.session != s.session then r.session < s.session
    else if r.ordinal != s.ordinal then r.ordinal < s.ordinal
    else c < d
  }

  lemma BeforeIsTotal(w: World, times: Times, c: CommandId, d: CommandId, e: CommandId)
    requires c in w.commands && d in w.commands && e in w.commands
    ensures !Before(w, times, c, c) && (c != d ==> (Before(w, times, c, d) <==> !Before(w, times, d, c)))
    ensures Before(w, times, c, d) && Before(w, times, d, e) ==> Before(w, times, c, e)
  {
  }

  /** A one-off command is handed to the queue worker only once its job awaits it. */
  predicate HandedOver(w: World, c: CommandId) {
    forall j | j in w.jobs && w.jobs[j].command == c :: w.jobs[j].phase.AwaitingCommand?
  }

  predicate Admitted(w: World, hold: Option<Restart>, handoff: bool, c: CommandId)
    requires c in w.commands
  {
    && (hold.Some? ==> hold.value.active && hold.value.command == c && hold.value.session == w.commands[c].session)
    && (handoff ==> HandedOver(w, c))
  }

  ghost predicate Runnable(w: World, hold: Option<Restart>, handoff: bool, c: CommandId) {
    Eligible(w, c) && Admitted(w, hold, handoff, c)
  }

  /** c may run, and nothing that may run is older. */
  ghost predicate Oldest(w: World, times: Times, hold: Option<Restart>, handoff: bool, c: CommandId) {
    && Runnable(w, hold, handoff, c)
    && forall d | Runnable(w, hold, handoff, d) && d != c :: Before(w, times, c, d)
  }

  ghost predicate NothingRunnable(w: World, hold: Option<Restart>, handoff: bool) {
    forall c :: !Runnable(w, hold, handoff, c)
  }

  // ---- the claim transaction's search ----

  predicate Known(w: World, q: seq<CommandId>) {
    forall i | 0 <= i < |q| :: q[i] in w.commands
  }

  predicate Sorted(w: World, times: Times, q: seq<CommandId>)
    requires Known(w, q)
  {
    forall i, j | 0 <= i < j < |q| :: Before(w, times, q[i], q[j])
  }

  /** Puts a command where it belongs among sorted ones. */
  method Insert(w: World, times: Times, q: seq<CommandId>, c: CommandId) returns (r: seq<CommandId>)
    requires Known(w, q) && Sorted(w, times, q) && c in w.commands && c !in q
    ensures Known(w, r) && Sorted(w, times, r) && forall d :: d in r <==> d in q || d == c
  {
    var k := 0;
    while k < |q| && Before(w, times, q[k], c)
      invariant k <= |q| && forall i | 0 <= i < k :: Before(w, times, q[i], c)
    {
      k := k + 1;
    }
    Behind(w, times, q, c, k);
    r := q[..k] + [c] + q[k..];
  }

  lemma Behind(w: World, times: Times, q: seq<CommandId>, c: CommandId, k: nat)
    requires Known(w, q) && Sorted(w, times, q) && c in w.commands && c !in q && k <= |q|
    requires k < |q| ==> !Before(w, times, q[k], c)
    ensures forall i | k <= i < |q| :: Before(w, times, c, q[i])
  {
    forall i | k <= i < |q| ensures Before(w, times, c, q[i]) {
      BeforeIsTotal(w, times, c, q[k], q[i]);
    }
  }

  /** The candidates in their order. */
  method SortCandidates(w: World, times: Times, ids: set<CommandId>) returns (q: seq<CommandId>)
    requires ids <= w.commands.Keys
    ensures Known(w, q) && Sorted(w, times, q) && forall c :: c in q <==> c in ids
  {
    q := [];
    var rest := ids;
    while rest != {}
      invariant rest <= ids && Known(w, q) && Sorted(w, times, q)
      invariant forall c :: c in q <==> c in ids - rest
      decreases |rest|
    {
      var c :| c in rest;
      q := Insert(w, times, q, c);
      rest := rest - {c};
    }
  }

  /** nextEligibleCommandOnConnection: whether the candidate is the first unfinished command of its session. */
  method CheckHead(w: World, c: CommandId) returns (head: bool)
    requires c in w.commands
    ensures head <==> IsHead(w, c)
  {
    var rest := w.commands.Keys;
    while rest != {}
      invariant rest <= w.commands.Keys
      invariant forall d | d in w.commands && d !in rest :: !Blocks(w, d, c)
      decreases |rest|
    {
      var d :| d in rest;
      if Blocks(w, d, c) {
        return false;
      }
      rest := rest - {d};
    }
    head := true;
  }

  /** An unfinished command of the same session that comes first. */
  predicate Blocks(w: World, d: CommandId, c: CommandId)
    requires c in w.commands && d in w.commands
  {
    && w.commands[d].session == w.commands[c].session && w.commands[d].ordinal < w.commands[c].ordinal
    && !CommandTerminal(w.commands[d].state)
  }

  /** What the candidate query returns. */
  predicate Candidate(w: World, handoff: bool, c: CommandId) {
    && c in w.commands && w.commands[c].state.Queued? && w.commands[c].slot.None?
    && InState(w, w.commands[c].session, Ready) && (handoff ==> HandedOver(w, c))
  }

  /** The search of startNextEligibleCommand: it finds the oldest command that may run, if any may. */
  method Pick(w: World, times: Times, hold: Option<Restart>, handoff: bool) returns (pick: Option<CommandId>)
    ensures pick.Some? ==> Oldest(w, times, hold, handoff, pick.value)
    ensures pick.None? ==> NothingRunnable(w, hold, handoff)
  {
    pick := None;
    if Barred(hold) || |LiveSlots(w)| >= RUNNING_COMMAND_LIMIT {
      return;
    }
    var q := SortCandidates(w, times, set c | c in w.commands && Candidate(w, handoff, c));
    var i := 0;
    while i < |q|
      invariant i <= |q| && forall k | 0 <= k < i :: !Runnable(w, hold, handoff, q[k])
    {
      assert q[i] in q;
      if hold.None? || (hold.value.command == q[i] && hold.value.session == w.commands[q[i]].session) {
        var head := CheckHead(w, q[i]);
        if head {
          FirstIsOldest(w, times, hold, handoff, q, i);
          return Some(q[i]);
        }
      }
      i := i + 1;
    }
    forall c ensures !Runnable(w, hold, handoff, c) {
      assert Runnable(w, hold, handoff, c) ==> c in q;
    }
  }

  lemma FirstIsOldest(w: World, times: Times, hold: Option<Restart>, handoff: bool, q: seq<CommandId>, i: nat)
    requires Known(w, q) && Sorted(w, times, q) && i < |q| && forall c :: c in q <==> Candidate(w, handoff, c)
    requires Runnable(w, hold, handoff, q[i]) && forall k | 0 <= k < i :: !Runnable(w, hold, handoff, q[k])
    ensures Oldest(w, times, hold, handoff, q[i])
  {
    forall d | Runnable(w, hold, handoff, d) && d != q[i] ensures Before(w, times, q[i], d) {
      assert d in q;
      var k :| 0 <= k < |q| && q[k] == d;
    }
  }

  // ---- every run ----

  /** d was accepted before c in the same session. */
  ghost predicate OrderedPair(w: World, c: CommandId, d: CommandId) {
    && c in w.commands && d in w.commands && w.commands[c].session == w.commands[d].session
    && w.commands[d].ordinal < w.commands[c].ordinal
  }

  /** A command that was ever started has nothing unfinished before it. */
  ghost predicate InOrder(w: World) {
    forall c, d | OrderedPair(w, c, d) && w.commands[c].slot.Some? :: CommandTerminal(w.commands[d].state)
  }

  /** The commands of every session are numbered from one, without gaps and without repetition. */
  ghost predicate Numbered(w: World) {
    && (forall c | c in w.commands :: 1 <= w.commands[c].ordinal <= |SessionCommands(w, w.commands[c].session)|)
    && (forall c, d | c in w.commands && d in w.commands && c != d && w.commands[c].session == w.commands[d].session ::
          w.commands[c].ordinal != w.commands[d].ordinal)
    && (forall x, n | 1 <= n <= |SessionCommands(w, x)| :: HasOrdinal(w, x, n))
  }

  ghost predicate HasOrdinal(w: World, x: SessionId, n: int) {
    exists c :: c in w.commands && w.commands[c].session == x && w.commands[c].ordinal == n
  }

  /** Nothing but an acceptance changes who is in the queues. */
  lemma QueuesStay(w: World, a: Action)
    requires Apply(w, a).Some?
    ensures var v := Apply(w, a).value;
            forall c | c in w.commands :: c in v.commands && v.commands[c].session == w.commands[c].session
                                          && v.commands[c].ordinal == w.commands[c].ordinal
    ensures !a.AcceptCommand? ==> Apply(w, a).value.commands.Keys == w.commands.Keys
    ensures a.AcceptCommand? ==>
              Apply(w, a) == Some(PutCommand(w, a.command, NewCommand(w, a.session))) && a.command !in w.commands
  {
  }

  lemma SameQueues(w: World, v: World)
    requires Numbered(w) && v.commands.Keys == w.commands.Keys
    requires forall c | c in w.commands ::
               v.commands[c].session == w.commands[c].session && v.commands[c].ordinal == w.commands[c].ordinal
    ensures Numbered(v)
  {
    forall x ensures SessionCommands(v, x) == SessionCommands(w, x) {}
    forall x, n | 1 <= n <= |SessionCommands(v, x)| ensures HasOrdinal(v, x, n) {
      assert HasOrdinal(w, x, n);
    }
  }

  /** How many commands each session has after an acceptance. */
  lemma OneLonger(w: World, c: CommandId, x: SessionId, y: SessionId)
    requires c !in w.commands
    ensures |SessionCommands(PutCommand(w, c, NewCommand(w, x)), y)| ==
            |SessionCommands(w, y)| + (if y == x then 1 else 0)
  {
    var v := PutCommand(w, c, NewCommand(w, x));
    assert SessionCommands(v, y) == SessionCommands(w, y) + (if y == x then {c} else {});
  }

  lemma StillFull(w: World, c: CommandId, x: SessionId, y: SessionId, n: int)
    requires Numbered(w) && c !in w.commands
    requires 1 <= n <= |SessionCommands(w, y)| || (y == x && n == |SessionCommands(w, x)| + 1)
    ensures HasOrdinal(PutCommand(w, c, NewCommand(w, x)), y, n)
  {
    var v := PutCommand(w, c, NewCommand(w, x));
    if n <= |SessionCommands(w, y)| {
      assert HasOrdinal(w, y, n);
      var d :| d in w.commands && w.commands[d].session == y && w.commands[d].ordinal == n;
      assert v.commands[d] == w.commands[d];
    } else {
      assert v.commands[c].session == y && v.commands[c].ordinal == n;
    }
  }

  lemma OneMore(w: World, c: CommandId, x: SessionId)
    requires Numbered(w) && c !in w.commands
    ensures Numbered(PutCommand(w, c, NewCommand(w, x)))
  {
    var v := PutCommand(w, c, NewCommand(w, x));
    forall d | d in v.commands ensures 1 <= v.commands[d].ordinal <= |SessionCommands(v, v.commands[d].session)| {
      OneLonger(w, c, x, v.commands[d].session);
    }
    forall y, n | 1 <= n <= |SessionCommands(v, y)| ensures HasOrdinal(v, y, n) {
      OneLonger(w, c, x, y);
      StillFull(w, c, x, y, n);
    }
  }

  lemma NumbersStep(w: World, a: Action)
    requires Numbered(w) && Apply(w, a).Some?
    ensures Numbered(Apply(w, a).value)
  {
    QueuesStay(w, a);
    if a.AcceptCommand? {
      OneMore(w, a.command, a.session);
    } else {
      SameQueues(w, Apply(w, a).value);
    }
  }

  lemma OrderStep(w: World, a: Action)
    requires Inv(w) && Numbered(w) && InOrder(w) && Licensed(w, a) && Apply(w, a).Some?
    ensures InOrder(Apply(w, a).value)
  {
    var v := Apply(w, a).value;
    StepSound(w, a);
    QueuesStay(w, a);
    forall c, d | OrderedPair(v, c, d) && v.commands[c].slot.Some? ensures CommandTerminal(v.commands[d].state) {
      StartedStep(w, a, c);
      NewIsLast(w, a, c, d);
      assert OrderedPair(w, c, d);
      assert CommandLater(w.commands[d], v.commands[d]);
    }
  }

  /** Only the scheduler starts a command. */
  lemma StartedStep(w: World, a: Action, c: CommandId)
    requires Apply(w, a).Some? && c in Apply(w, a).value.commands && Apply(w, a).value.commands[c].slot.Some?
    ensures c in w.commands && (w.commands[c].slot.Some? || (a == StartCommand(c) && IsHead(w, c)))
  {
  }

  /** A command that was just accepted comes before nothing. */
  lemma NewIsLast(w: World, a: Action, c: CommandId, d: CommandId)
    requires Numbered(w) && Apply(w, a).Some? && OrderedPair(Apply(w, a).value, c, d) && c in w.commands
    ensures d in w.commands
  {
    QueuesStay(w, a);
  }

  lemma {:induction false} RunKeepsOrder(limit: nat, trace: seq<Action>)
    requires Disciplined(Start(limit), trace) && Run(Start(limit), trace).Some?
    ensures Numbered(Run(Start(limit), trace).value) && InOrder(Run(Start(limit), trace).value)
    decreases |trace|
  {
    if trace == [] {
      forall x ensures SessionCommands(Start(limit), x) == {} {}
    } else {
      var n := |trace| - 1;
      DisciplinedPrefix(Start(limit), trace, n);
      RunKeepsOrder(limit, trace[..n]);
      StartInv(limit);
      RunInv(Start(limit), trace[..n]);
      var w := Run(Start(limit), trace[..n]).value;
      NumbersStep(w, trace[n]);
      OrderStep(w, trace[n]);
    }
  }

  /** In every run: no command is ever started, and no script sent, while an earlier command of its session is
      unfinished; and the ordinals of a session are one to n, so that reading its queue never fails. */
  lemma SessionsRunInOrder(limit: nat, trace: seq<Action>)
    requires Disciplined(Start(limit), trace) && Run(Start(limit), trace).Some?
    ensures Orderly(Run(Start(limit), trace).value)
  {
    RunKeepsOrder(limit, trace);
    StartInv(limit);
    RunInv(Start(limit), trace);
    SentWasStarted(Run(Start(limit), trace).value);
  }

  ghost predicate Orderly(w: World) {
    && Numbered(w)
    && forall c, d | OrderedPair(w, c, d) && (w.commands[c].slot.Some? || w.commands[c].sent > 0) :: Finished(w, d)
  }

  /** The same of every world that any interleaving of service calls and crashes can reach. */
  lemma ReachableIsOrderly(w: World)
    requires Reachable(w)
    ensures Orderly(w)
  {
    var limit, trace := ReachableRun(w);
    SessionsRunInOrder(limit, trace);
  }

  lemma SentWasStarted(w: World)
    requires Inv(w)
    ensures forall c | c in w.commands && w.commands[c].sent > 0 :: w.commands[c].slot.Some?
  {
    forall c | c in w.commands && w.commands[c].sent > 0 ensures w.commands[c].slot.Some? {
      assert CommandOk(w.epoch, w.sessions[w.commands[c].session], w.commands[c]);
    }
  }
}
