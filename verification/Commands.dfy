/** Executing, resuming and cancelling commands. */
module Commands {
  import opened Common
  import opened Lifecycle
  import opened Authority
  import opened Runs
  import opened Interference
  import opened Scheduler
  import opened ExecutionService

  /** A returned command snapshot, if any, and whether the call returned without an error. */
  datatype CommandResult = CommandResult(row: Option<CommandRow>, ok: bool)

  datatype RunAnswer = TransportError | ShellExit | Exit(code: int)

  /** Somebody answers for this command: it is terminal, or a cancellation owns its end. */
  predicate Attended(w: World, c: CommandId) {
    c in w.commands && (CommandTerminal(w.commands[c].state) || w.commands[c].state.Cancelling?)
  }

  lemma AttendedLater(u: World, v: World, t: Tokens, c: CommandId)
    requires Reachable(u) && Rely(u, v, t) && Attended(u, c)
    ensures Attended(v, c)
  {
    RelyKeepsCommand(u, v, t, c);
  }

  /** What a returned snapshot says about the stored command now. */
  predicate Reports(w: World, c: CommandId, r: CommandResult) {
    && (r.row.Some? ==> Seen(w, c, r.row.value))
    && (r.ok ==> r.row.Some?)
  }

  /** Uses up the claim: hands the script to the runtime if asked to and still possible, else gives it up. */
  method UseClaim(s: Service, c: CommandId, send: bool) returns (sent: bool)
    requires s.Valid() && s.tokens.claim == Some(c)
    modifies s
    ensures s.Valid() && s.tokens == old(s.tokens).(claim := None) && Rely(old(s.w), s.w, s.tokens)
    ensures s.w.epoch == old(s.w).epoch && Seen(s.w, c, old(s.w).commands[c]) && (sent ==> send)
    ensures s.w.commands[c].sent == old(s.w).commands[c].sent + (if sent then 1 else 0)
  {
    s.Yield();
    sent := send && Apply(s.w, OnCommand(c, Send)).Some?;
    var next := Apply(s.w, OnCommand(c, if sent then Send else DropClaim));
    ClaimFacts(old(s.w), s.w, c, if sent then Send else DropClaim, next, s.tokens);
    s.w := next.value;
    s.tokens := s.tokens.(claim := None);
    RelyKeepsCommand(old(s.w), s.w, s.tokens, c);
  }

  lemma ClaimFacts(start: World, w: World, c: CommandId, op: CommandOp, next: Option<World>, t: Tokens)
    requires Reachable(start) && Holds(start, t) && Rely(start, w, t) && t.claim == Some(c)
    requires op.Send? || op.DropClaim?
    requires next == Apply(w, OnCommand(c, op)) && (op.Send? ==> next.Some?)
    ensures next.Some? && Reachable(next.value) && Rely(start, next.value, t.(claim := None))
    ensures next.value.epoch == start.epoch && Holds(next.value, t.(claim := None))
    ensures c in next.value.commands && c in start.commands
    ensures next.value.commands[c].sent == start.commands[c].sent + (if op.Send? then 1 else 0)
  {
    var s := t.(claim := None);
    RelyKeepsTokens(start, w, t);
    RelyKeepsCommand(start, w, t, c);
    ReachableInv(start);
    RelyFewer(start, w, t, s);
    StepRely(w, OnCommand(c, op), next.value, s);
    RelyTransitive(start, w, next.value, s);
    RelyKeepsTokens(start, next.value, s);
  }

  /** ExecuteCommand at the runtime: only a reported exit is a completion boundary. */
  method RunScript(s: Service, c: CommandId) returns (answer: RunAnswer)
    requires s.Valid() && s.tokens.claim == Some(c)
    modifies s
    ensures s.Valid() && s.tokens == old(s.tokens).(claim := None) && Rely(old(s.w), s.w, s.tokens)
    ensures s.w.epoch == old(s.w).epoch && Seen(s.w, c, old(s.w).commands[c])
    ensures answer.Exit? ==> Ended(s.w, c)
  {
    var reached: bool := *;
    var sent := UseClaim(s, c, reached);
    if !sent {
      return TransportError;
    }
    ghost var mid := s.w;
    var o, _ := s.OnCommandRow(c, Boundary);
    RelyTransitive(old(s.w), mid, s.w, s.tokens);
    SeenLater(mid, s.w, s.tokens, c, old(s.w).commands[c]);
    var code: int := *;
    var shellExited: bool := *;
    answer := if shellExited then ShellExit else if o.Done? then Exit(code) else TransportError;
  }

  /** finishCommandFailure: records lost without a release; when the transaction loses, the stored
      terminal winner decides. */
  method FinishCommandFailure(s: Service, c: CommandId, row: CommandRow, storeFault: bool) returns (r: CommandResult)
    requires s.Valid() && Seen(s.w, c, row)
    modifies s`w, s`faults
    ensures s.Valid() && Rely(old(s.w), s.w, s.tokens) && s.w.epoch == old(s.w).epoch
    ensures Reports(s.w, c, r)
    ensures r.ok ==> Finished(s.w, c)
  {
    RelyRefl(s.w, s.tokens);
    if storeFault {
      SettledSession(s.w, c);
      var _ := s.StopRuntime(s.w.commands[c].session);
      SeenLater(old(s.w), s.w, s.tokens, c, row);
    }
    ghost var w1 := s.w;
    var o := s.Complete(c, CommandState.Lost, SessionState.Lost, false);
    RelyTransitive(old(s.w), w1, s.w, s.tokens);
    SeenLater(w1, s.w, s.tokens, c, row);
    if o.Done? {
      SeenNow(s.w, c);
      return CommandResult(Some(s.w.commands[c]), false);
    }
    ghost var w2 := s.w;
    var current := s.ReadCommand(c);
    RelyTransitive(old(s.w), w2, s.w, s.tokens);
    SeenLater(w2, s.w, s.tokens, c, row);
    if current.Some? && CommandTerminal(current.value.state) {
      return CommandResult(current, !current.value.state.Lost?);
    }
    r := CommandResult(Some(row), false);
  }

  /** A session that has commands is past its creation. */
  lemma SettledSession(w: World, c: CommandId)
    requires Reachable(w) && c in w.commands
    ensures w.commands[c].session in w.sessions && !CreationInFlight(w, w.commands[c].session)
  {
    ReachableInv(w);
  }

  function ExitState(code: int): CommandState {
    if code == 0 then Succeeded else CommandState.Failed
  }

  /** The completion transaction of ExecuteClaimedCommand and its race with a cancellation. */
  method RecordExit(s: Service, c: CommandId, row: CommandRow, code: int) returns (r: CommandResult, won: bool)
    requires s.Valid() && Seen(s.w, c, row) && Ended(s.w, c)
    modifies s`w, s`faults
    ensures s.Valid() && Rely(old(s.w), s.w, s.tokens) && s.w.epoch == old(s.w).epoch
    ensures Reports(s.w, c, r)
    ensures r.ok ==> Finished(s.w, c)
    ensures won ==> r.ok && s.w.commands[c].state == ExitState(code) && s.w.commands[c].slot == Some(Released)
    ensures won ==> InState(s.w, s.w.commands[c].session, Ready)
  {
    won := false;
    var o := s.Complete(c, ExitState(code), Ready, true);
    ghost var w1 := s.w;
    SeenLater(old(s.w), s.w, s.tokens, c, row);
    if o.Done? {
      SeenNow(s.w, c);
      return CommandResult(Some(s.w.commands[c]), true), true;
    }
    var current := s.ReadCommand(c);
    RelyTransitive(old(s.w), w1, s.w, s.tokens);
    SeenLater(w1, s.w, s.tokens, c, row);
    if current.Some? && CommandTerminal(current.value.state) {
      return CommandResult(current, true), false;
    }
    if current.None? || o.Refused? {
      return CommandResult(Some(row), false), false;
    }
    ghost var w2 := s.w;
    r := FinishCommandFailure(s, c, row, true);
    RelyTransitive(old(s.w), w2, s.w, s.tokens);
  }

  /** What ExecuteClaimedCommand does once the runtime answered. */
  method SettleAnswer(s: Service, c: CommandId, row: CommandRow, answer: RunAnswer) returns (r: CommandResult)
    requires s.Valid() && Seen(s.w, c, row) && (answer.Exit? ==> Ended(s.w, c))
    modifies s`w, s`faults
    ensures s.Valid() && Rely(old(s.w), s.w, s.tokens) && s.w.epoch == old(s.w).epoch
    ensures Reports(s.w, c, r)
    ensures r.ok ==> Attended(s.w, c)
  {
    var stored: bool := *;
    if !answer.Exit? || !stored {
      var storeFault: bool := *;
      r := FinishCommandFailure(s, c, row, storeFault);
      return;
    }
    RelyRefl(s.w, s.tokens);
    if answer.code < 0 {
      var current := s.ReadCommand(c);
      SeenLater(old(s.w), s.w, s.tokens, c, row);
      EndedLater(old(s.w), s.w, s.tokens, c);
      if current.None? {
        return CommandResult(Some(row), false);
      }
      if current.value.state.Cancelling? {
        return CommandResult(current, true);
      }
    }
    ghost var w1 := s.w;
    var won;
    r, won := RecordExit(s, c, row, answer.code);
    RelyTransitive(old(s.w), w1, s.w, s.tokens);
  }

  lemma EndedLater(u: World, v: World, t: Tokens, c: CommandId)
    requires Reachable(u) && Rely(u, v, t) && Ended(u, c)
    ensures Ended(v, c)
  {
    RelyKeepsCommand(u, v, t, c);
    RelyKeeps(u, v, t);
  }

  /** ExecuteClaimedCommand.  The claim is used up on every path; a return without an error leaves the
      command terminal or owned by a cancellation, and reports a stored snapshot. */
  method ExecuteClaimed(s: Service, c: CommandId) returns (r: CommandResult)
    requires s.Valid() && s.tokens.claim == Some(c)
    modifies s
    ensures s.Valid() && s.tokens == old(s.tokens).(claim := None) && Rely(old(s.w), s.w, s.tokens)
    ensures Reports(s.w, c, r)
    ensures r.ok ==> Attended(s.w, c)
  {
    var row := s.ReadCommand(c);
    ghost var w1 := s.w;
    RelyFewer(old(s.w), w1, s.tokens, s.tokens.(claim := None));
    var refused: bool := *;
    if row.None? || refused || !row.value.state.Running? {
      var _ := UseClaim(s, c, false);
      RelyTransitive(old(s.w), w1, s.w, s.tokens);
      if row.Some? {
        SeenLater(w1, s.w, s.tokens, c, row.value);
      }
      r := CommandResult(row, row.Some? && !refused
          && (CommandTerminal(row.value.state) || row.value.state.Cancelling?));
      return;
    }
    var answer := RunScript(s, c);
    RelyTransitive(old(s.w), w1, s.w, s.tokens);
    ghost var w2 := s.w;
    r := SettleAnswer(s, c, row.value, answer);
    RelyTransitive(old(s.w), w2, s.w, s.tokens);
  }

  /** ClaimNextEligibleCommand, and with `handoff` ClaimNextDispatchableCommand: in one transaction the oldest
      command that may run becomes durably running, before any runtime call.  It is refused only when nothing
      may run; a prepared controlled restart that is not active makes it fail. */
  method ClaimNext(s: Service, hold: Option<Restart>, handoff: bool) returns (o: Outcome, c: CommandId, ghost at: World)
    requires s.Valid() && s.tokens.claim.None?
    modifies s
    ensures s.Valid() && Rely(old(s.w), at, old(s.tokens)) && Rely(old(s.w), s.w, old(s.tokens))
    ensures s.tokens == if o.Done? then old(s.tokens).(claim := Some(c)) else old(s.tokens)
    ensures o.Done? ==> Oldest(at, s.times, hold, handoff, c) && Apply(at, StartCommand(c)) == Some(s.w)
    ensures o.Done? ==> c in s.w.commands && s.w.commands[c].state.Running? && s.w.commands[c].sent == 0
    ensures o.Refused? ==> !Barred(hold) && NothingRunnable(at, hold, handoff) && s.w == at
  {
    s.Yield();
    at := s.w;
    c := 0;
    if Barred(hold) {
      o := StoreError;
      return;
    }
    var pick := Pick(s.w, s.times, hold, handoff);
    if pick.None? {
      o := Refused;
      return;
    }
    c := pick.value;
    o := s.CommitNow(StartCommand(c));
    RelyTransitive(old(s.w), at, s.w, s.tokens);
    if o.Done? {
      ReachableInv(at);
      s.tokens := s.tokens.(claim := Some(c));
    }
  }

  /** ResumeCommand.  The scheduler may hand this call another session's older command; whatever it
      claimed is attended to before a return without an error, and no claim is left behind on any return. */
  method ResumeCommand(s: Service, c: CommandId) returns (r: CommandResult, claimed: Option<CommandId>)
    requires s.Valid() && s.tokens.claim.None?
    modifies s
    ensures s.Valid() && s.tokens == old(s.tokens) && Rely(old(s.w), s.w, s.tokens)
    ensures Reports(s.w, c, r)
    ensures r.ok && claimed.Some? ==> Attended(s.w, claimed.value)
  {
    claimed := None;
    var row := s.ReadCommand(c);
    var refused: bool := *;
    if row.None? || refused {
      return CommandResult(None, false), None;
    }
    if !row.value.state.Queued? {
      return CommandResult(row, true), None;
    }
    ghost var w1 := s.w;
    var hold: Option<Restart> := *;
    var o, d, _ := ClaimNext(s, hold, false);
    RelyTransitive(old(s.w), w1, s.w, old(s.tokens));
    SeenLater(w1, s.w, old(s.tokens), c, row.value);
    if !o.Done? {
      return CommandResult(row, o.Refused?), None;
    }
    claimed := Some(d);
    ghost var w2 := s.w;
    var executed := ExecuteClaimed(s, d);
    RelyTransitive(old(s.w), w2, s.w, s.tokens);
    SeenLater(w2, s.w, s.tokens, c, row.value);
    if d == c {
      return executed, claimed;
    }
    if !executed.ok && !(executed.row.Some? && CommandTerminal(executed.row.value.state)) {
      return CommandResult(row, false), claimed;
    }
    ghost var w3 := s.w;
    var refreshed := s.ReadCommand(c);
    RelyTransitive(old(s.w), w3, s.w, s.tokens);
    AttendedLater(w3, s.w, s.tokens, d);
    SeenLater(w3, s.w, s.tokens, c, row.value);
    r := if refreshed.None? then CommandResult(Some(row.value), false) else CommandResult(refreshed, true);
  }

  /** AcceptCommand: queues a command, last in a session that is ready or busy; a known id is a duplicate. */
  method Accept(s: Service, c: CommandId, x: SessionId) returns (r: CommandResult, duplicate: bool)
    requires s.Valid()
    modifies s`w, s`faults
    ensures s.Valid() && Rely(old(s.w), s.w, s.tokens)
    ensures Reports(s.w, c, r)
    ensures r.ok && !duplicate ==> r.row.value.state.Queued? && r.row.value.session == x
    ensures r.ok && !duplicate ==> r.row.value.ordinal == |SessionCommands(s.w, x)|
  {
    var o, at := s.Commit(AcceptCommand(c, x));
    if o.Done? {
      assert SessionCommands(s.w, x) == SessionCommands(at, x) + {c};
    }
    duplicate := o.Refused? && c in s.w.commands;
    if o.Done? || duplicate {
      SeenNow(s.w, c);
      r := CommandResult(Some(s.w.commands[c]), true);
    } else {
      r := CommandResult(None, false);
    }
  }

  /** SubmitCommand: accept, then resume unless the id was already known. */
  method Submit(s: Service, c: CommandId, x: SessionId) returns (r: CommandResult)
    requires s.Valid() && s.tokens.claim.None?
    modifies s
    ensures s.Valid() && s.tokens == old(s.tokens) && Rely(old(s.w), s.w, s.tokens)
    ensures Reports(s.w, c, r)
  {
    var duplicate;
    r, duplicate := Accept(s, c, x);
    if r.ok && !duplicate {
      ghost var mid := s.w;
      var claimed;
      r, claimed := ResumeCommand(s, c);
      RelyTransitive(old(s.w), mid, s.w, s.tokens);
    }
  }

  /** The runtime's cancellation: confirmed only with the stop boundary of a script that was sent. */
  method CancelAtRuntime(s: Service, c: CommandId) returns (confirmed: bool)
    requires s.Valid() && c in s.w.commands
    modifies s`w, s`faults
    ensures s.Valid() && Rely(old(s.w), s.w, s.tokens) && s.w.epoch == old(s.w).epoch
    ensures Seen(s.w, c, old(s.w).commands[c]) && (confirmed ==> Ended(s.w, c)) && s.faults == old(s.faults)
  {
    var o, _ := s.OnCommandRow(c, Boundary);
    var outputStored: bool := *;
    confirmed := o.Done? && outputStored;
  }

  /** finishCancelledCommand: a confirmed stop cancels and releases the slot; otherwise the command and
      its session are lost and the slot stays held.  A terminal winner is returned as it is stored. */
  method FinishCancelled(s: Service, c: CommandId, row: CommandRow, confirmed: bool)
    returns (r: CommandResult, won: bool)
    requires s.Valid() && Seen(s.w, c, row) && (confirmed ==> Ended(s.w, c))
    modifies s`w, s`faults
    ensures s.Valid() && Rely(old(s.w), s.w, s.tokens) && s.w.epoch == old(s.w).epoch
    ensures Reports(s.w, c, r)
    ensures r.ok ==> CommandTerminal(r.row.value.state) && !r.row.value.state.Lost?
    ensures won ==> c in s.w.commands && s.w.commands[c].state == (if confirmed then Cancelled else CommandState.Lost)
    ensures won ==> r.ok == confirmed
    ensures won && confirmed ==> s.w.commands[c].slot == Some(Released)
  {
    won := false;
    var first := s.ReadCommand(c);
    SeenLater(old(s.w), s.w, s.tokens, c, row);
    if first.None? {
      return CommandResult(Some(row), false), false;
    }
    if CommandTerminal(first.value.state) {
      return CommandResult(first, !first.value.state.Lost?), false;
    }
    if confirmed {
      EndedLater(old(s.w), s.w, s.tokens, c);
    }
    ghost var w1 := s.w;
    var o := s.Complete(c, if confirmed then Cancelled else CommandState.Lost,
                        if confirmed then Ready else SessionState.Lost, confirmed);
    RelyTransitive(old(s.w), w1, s.w, s.tokens);
    SeenLater(w1, s.w, s.tokens, c, row);
    if o.Done? {
      SeenNow(s.w, c);
      return CommandResult(Some(s.w.commands[c]), confirmed), true;
    }
    ghost var w2 := s.w;
    var current := s.ReadCommand(c);
    RelyTransitive(old(s.w), w2, s.w, s.tokens);
    SeenLater(w2, s.w, s.tokens, c, row);
    r := if current.Some? && CommandTerminal(current.value.state)
         then CommandResult(current, !current.value.state.Lost?)
         else CommandResult(Some(row), false);
  }

  /** CancelCommand.  A first (not duplicate) cancellation that returns without an error returns the
      terminal state that is stored, whoever wrote it. */
  method CancelCommand(s: Service, c: CommandId, duplicate: bool) returns (r: CommandResult, won: bool)
    requires s.Valid()
    modifies s`w, s`faults
    ensures s.Valid() && Rely(old(s.w), s.w, s.tokens)
    ensures Reports(s.w, c, r)
    ensures won ==>
              !duplicate && c in s.w.commands && s.w.commands[c].state == if r.ok then Cancelled else CommandState.Lost
    ensures r.ok && !duplicate ==> Finished(s.w, c) && s.w.commands[c].state == r.row.value.state
  {
    won := false;
    var row := s.ReadCommand(c);
    var refused: bool := *;
    if row.None? || refused {
      return CommandResult(None, false), false;
    }
    if duplicate || CommandTerminal(row.value.state) {
      return CommandResult(row, true), false;
    }
    ghost var w1 := s.w;
    if !row.value.state.Cancelling? {
      var o, _ := s.OnCommandRow(c, Move(if row.value.state.Queued? then Cancelled else Cancelling));
      RelyTransitive(old(s.w), w1, s.w, s.tokens);
      if !o.Done? {
        return CommandResult(None, false), false;
      }
      if row.value.state.Queued? {
        SeenNow(s.w, c);
        return CommandResult(Some(s.w.commands[c]), true), true;
      }
    }
    ghost var w2 := s.w;
    var confirmed := CancelAtRuntime(s, c);
    RelyTransitive(old(s.w), w2, s.w, s.tokens);
    SeenLater(w2, s.w, s.tokens, c, row.value);
    ghost var w3 := s.w;
    r, won := FinishCancelled(s, c, row.value, confirmed);
    RelyTransitive(old(s.w), w3, s.w, s.tokens);
  }
}
