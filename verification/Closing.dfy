/** Closing a session: its commands first, then its runtime, then the state, then the reservation. */
module Closing {
  import opened Common
  import opened Lifecycle
  import opened Authority
  import opened Runs
  import opened Interference
  import opened ExecutionService
  import opened Commands

  datatype CloseResult = CloseOk(row: SessionRow) | CloseLost(row: SessionRow) | CloseError

  predicate AllFinished(w: World, ids: seq<CommandId>) {
    forall i | 0 <= i < |ids| :: Finished(w, ids[i])
  }

  predicate AllSeen(w: World, ids: seq<CommandId>, rows: map<CommandId, CommandRow>) {
    forall i | 0 <= i < |ids| :: ids[i] in rows && Seen(w, ids[i], rows[ids[i]])
  }

  /** Every command of the session is in the list. */
  predicate Covers(w: World, x: SessionId, ids: seq<CommandId>) {
    forall c | c in w.commands && w.commands[c].session == x :: c in ids
  }

  predicate NothingLeft(w: World, x: SessionId) {
    forall c | c in w.commands && w.commands[c].session == x :: Finished(w, c)
  }

  predicate Ending(w: World, x: SessionId) {
    x in w.sessions && SessionEnding(w.sessions[x].state)
  }

  /** The state of a loop over a session's listed commands, the first i of them settled. */
  predicate Turn(w: World, x: SessionId, ids: seq<CommandId>, rows: map<CommandId, CommandRow>, i: nat)
    requires i <= |ids|
  {
    Ending(w, x) && Covers(w, x, ids) && AllSeen(w, ids, rows) && AllFinished(w, ids[..i])
  }

  /** Once a session is closing no command joins it, so the list stays complete. */
  lemma TurnLater(u: World, v: World, t: Tokens, x: SessionId, ids: seq<CommandId>, rows: map<CommandId, CommandRow>,
                  i: nat)
    requires Reachable(u) && Rely(u, v, t) && i <= |ids| && Turn(u, x, ids, rows, i)
    ensures Turn(v, x, ids, rows, i)
  {
    RelyKeeps(u, v, t);
    forall k | 0 <= k < |ids| ensures Seen(v, ids[k], rows[ids[k]]) {
      SeenLater(u, v, t, ids[k], rows[ids[k]]);
    }
  }

  lemma TurnNext(w: World, x: SessionId, ids: seq<CommandId>, rows: map<CommandId, CommandRow>, i: nat)
    requires i < |ids| && Turn(w, x, ids, rows, i) && Finished(w, ids[i])
    ensures Turn(w, x, ids, rows, i + 1)
  {
  }

  lemma TurnsDone(w: World, x: SessionId, ids: seq<CommandId>, rows: map<CommandId, CommandRow>)
    requires Turn(w, x, ids, rows, |ids|)
    ensures NothingLeft(w, x)
  {
  }

  /** The ids of a set in some order. */
  method Sequence(ids: set<CommandId>) returns (q: seq<CommandId>)
    ensures forall c :: c in q <==> c in ids
    ensures forall i, j | 0 <= i < j < |q| :: q[i] != q[j]
  {
    q := [];
    var rest := ids;
    while rest != {}
      invariant rest <= ids
      invariant forall c :: c in q <==> c in ids - rest
      invariant forall i, j | 0 <= i < j < |q| :: q[i] != q[j]
      decreases |rest|
    {
      var c :| c in rest;
      q := q + [c];
      rest := rest - {c};
    }
  }

  /** ListSessionCommands: one consistent snapshot of the session's commands. */
  method ListCommands(s: Service, x: SessionId) returns (ids: seq<CommandId>, rows: map<CommandId, CommandRow>)
    requires s.Valid()
    ensures s.Valid() && rows == s.w.commands
    ensures Covers(s.w, x, ids) && AllSeen(s.w, ids, rows)
    ensures forall c :: c in ids <==> c in rows && rows[c].session == x
    ensures forall i, j | 0 <= i < j < |ids| :: ids[i] != ids[j]
  {
    rows := s.w.commands;
    ids := Sequence(set c | c in rows && rows[c].session == x);
    forall i | 0 <= i < |ids| ensures ids[i] in rows && Seen(s.w, ids[i], rows[ids[i]]) {
      assert ids[i] in ids;
      SeenNow(s.w, ids[i]);
    }
  }

  datatype StopOutcome = Settled | Unconfirmed | Broken

  /** One turn of the close loop: cancel a queued command, stop an active one. */
  method CloseCommand(s: Service, c: CommandId, row: CommandRow) returns (outcome: StopOutcome)
    requires s.Valid() && Seen(s.w, c, row)
    modifies s`w, s`faults
    ensures s.Valid() && Rely(old(s.w), s.w, s.tokens) && s.w.epoch == old(s.w).epoch
    ensures outcome.Settled? ==> Finished(s.w, c)
    ensures outcome.Settled? && !CommandTerminal(row.state) ==> s.w.commands[c].state.Cancelled?
    ensures s.faults >= old(s.faults) && (outcome.Broken? ==> s.faults > old(s.faults))
  {
    RelyRefl(s.w, s.tokens);
    if row.state.Queued? {
      var o, _ := s.OnCommandRow(c, Move(Cancelled));
      return if o.Done? then Settled else Broken;
    }
    if !CommandActive(row.state) {
      return Settled;
    }
    if row.state.Running? {
      var o, _ := s.OnCommandRow(c, Move(Cancelling));
      if !o.Done? {
        return Broken;
      }
    }
    ghost var w1 := s.w;
    var confirmed := CancelAtRuntime(s, c);
    RelyTransitive(old(s.w), w1, s.w, s.tokens);
    ghost var w2 := s.w;
    var o := s.Complete(c, if confirmed then Cancelled else CommandState.Lost, SessionState.Closing, confirmed);
    RelyTransitive(old(s.w), w2, s.w, s.tokens);
    outcome := if !confirmed then Unconfirmed else if o.Done? then Settled else Broken;
  }

  /** The close loop over the snapshot. */
  method CloseCommands(s: Service, x: SessionId) returns (outcome: StopOutcome)
    requires s.Valid() && Ending(s.w, x)
    modifies s`w, s`faults
    ensures s.Valid() && Rely(old(s.w), s.w, s.tokens) && s.w.epoch == old(s.w).epoch && Ending(s.w, x)
    ensures outcome.Settled? ==> NothingLeft(s.w, x)
    ensures s.faults >= old(s.faults) && (outcome.Broken? ==> s.faults > old(s.faults))
  {
    var ids, rows := ListCommands(s, x);
    RelyRefl(s.w, s.tokens);
    var i := 0;
    while i < |ids|
      invariant 0 <= i <= |ids|
      invariant s.Valid() && Rely(old(s.w), s.w, s.tokens) && s.w.epoch == old(s.w).epoch
      invariant Turn(s.w, x, ids, rows, i) && s.faults >= old(s.faults)
    {
      ghost var before := s.w;
      outcome := CloseCommand(s, ids[i], rows[ids[i]]);
      RelyTransitive(old(s.w), before, s.w, s.tokens);
      TurnLater(before, s.w, s.tokens, x, ids, rows, i);
      if !outcome.Settled? {
        return;
      }
      TurnNext(s.w, x, ids, rows, i);
      i := i + 1;
    }
    TurnsDone(s.w, x, ids, rows);
    outcome := Settled;
  }

  /** markClosingLost: the reservation stays held. */
  method MarkClosingLost(s: Service, x: SessionId) returns (r: CloseResult)
    requires s.Valid() && x in s.w.sessions && !CreationInFlight(s.w, x)
    modifies s`w, s`faults
    ensures s.Valid() && Rely(old(s.w), s.w, s.tokens) && s.w.epoch == old(s.w).epoch
    ensures r.CloseError? || (r.CloseLost? && InState(s.w, x, SessionState.Lost) && s.w.sessions[x] == r.row)
    ensures s.faults >= old(s.faults) && (r.CloseError? ==> s.faults > old(s.faults))
  {
    var o, _ := s.OnRow(x, Transition(SessionState.Lost));
    r := if o.Done? then CloseLost(s.w.sessions[x]) else CloseError;
  }

  /** The last steps of a close: stop proof, closed state, release. */
  method FinishClose(s: Service, x: SessionId) returns (r: CloseResult)
    requires s.Valid() && x in s.w.sessions && !CreationInFlight(s.w, x)
    modifies s`w, s`faults
    ensures s.Valid() && Rely(old(s.w), s.w, s.tokens) && s.w.epoch == old(s.w).epoch
    ensures r.CloseOk? ==>
              InState(s.w, x, Closed) && r.row.state.Closed? && Gone(s.w, x) && s.w.sessions[x].reservation.Released?
    ensures r.CloseLost? ==> InState(s.w, x, SessionState.Lost) && r.row.state.Lost?
    ensures s.faults >= old(s.faults) && (r.CloseError? ==> s.faults > old(s.faults))
  {
    var confirmed := s.StopRuntime(x);
    ghost var w1 := s.w;
    if !confirmed {
      r := MarkClosingLost(s, x);
      RelyTransitive(old(s.w), w1, s.w, s.tokens);
      return;
    }
    var o, _ := s.OnRow(x, Transition(Closed));
    RelyTransitive(old(s.w), w1, s.w, s.tokens);
    if !o.Done? {
      return CloseError;
    }
    ghost var w2 := s.w;
    var closed := s.w.sessions[x];
    var released, _ := s.OnRow(x, ConfirmCleanup);
    RelyTransitive(old(s.w), w2, s.w, s.tokens);
    r := if released.Done? then CloseOk(closed) else CloseError;
  }

  /** CloseSession for a session whose creation has settled.  A close that did the work leaves the
      session closed, proved gone and released with every command terminal; an unconfirmed stop leaves
      it lost; an error for a known session comes from a store step that did not commit. */
  method CloseSession(s: Service, x: SessionId) returns (r: CloseResult, already: bool)
    requires s.Valid() && !CreationInFlight(s.w, x)
    modifies s`w, s`faults
    ensures s.Valid() && Rely(old(s.w), s.w, s.tokens)
    ensures r.CloseOk? && already ==> SessionTerminal(r.row.state) && InState(s.w, x, r.row.state)
    ensures r.CloseOk? && !already ==> InState(s.w, x, Closed) && r.row.state.Closed? && NothingLeft(s.w, x)
    ensures r.CloseOk? && !already ==> Gone(s.w, x) && s.w.sessions[x].reservation.Released?
    ensures r.CloseLost? ==> InState(s.w, x, SessionState.Lost) && r.row.state.Lost?
    ensures r.CloseOk? && already ==> x in old(s.w).sessions && r.row == old(s.w).sessions[x]
    ensures s.faults >= old(s.faults) && (r.CloseError? && x in old(s.w).sessions ==> s.faults > old(s.faults))
  {
    RelyRefl(s.w, s.tokens);
    already := false;
    if x !in s.w.sessions {
      return CloseError, false;
    }
    if SessionTerminal(s.w.sessions[x].state) {
      return CloseOk(s.w.sessions[x]), true;
    }
    if !s.w.sessions[x].state.Closing? {
      var o, _ := s.OnRow(x, Transition(SessionState.Closing));
      if !o.Done? {
        return CloseError, false;
      }
    }
    ghost var w1 := s.w;
    var outcome := CloseCommands(s, x);
    RelyTransitive(old(s.w), w1, s.w, s.tokens);
    SettledLater(old(s.w), s.w, s.tokens, x);
    if outcome.Broken? {
      return CloseError, false;
    }
    ghost var w2 := s.w;
    if outcome.Unconfirmed? {
      r := MarkClosingLost(s, x);
    } else {
      r := FinishClose(s, x);
      NothingLeftLater(w2, s.w, s.tokens, x);
    }
    RelyTransitive(old(s.w), w2, s.w, s.tokens);
  }

  lemma SettledLater(u: World, v: World, t: Tokens, x: SessionId)
    requires Reachable(u) && Rely(u, v, t) && x in u.sessions && !CreationInFlight(u, x)
    ensures x in v.sessions && !CreationInFlight(v, x)
  {
    RelyKeeps(u, v, t);
  }

  lemma NothingLeftLater(u: World, v: World, t: Tokens, x: SessionId)
    requires Reachable(u) && Rely(u, v, t) && Ending(u, x) && NothingLeft(u, x)
    ensures NothingLeft(v, x)
  {
    RelyKeeps(u, v, t);
  }
}
