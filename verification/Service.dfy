/** The shared execution service.  A `Service` object is one call's view of the authority: between
    any two of its own steps other callers run, and a crash may end the call after any of them. */
module ExecutionService {
  import opened Common
  import opened Lifecycle
  import opened Authority
  import opened Runs
  import opened Interference
  import opened Scheduler

  /** How a store transaction ended: committed, refused by its own guards, or lost to a store error. */
  datatype Outcome = Done | Refused | StoreError

  datatype PrepareAnswer = Prepared(generation: bool) | PrepareFailed(generation: bool)

  datatype CreateResult =
    | Denied
    | NotAccepted
    | Duplicate(row: SessionRow)
    | Created(row: SessionRow)
    | RuntimeFailed(row: SessionRow)
    | Unrecorded

  class Service {
    var w: World
    const times: Times             // when each command was created, as stored
    ghost var tokens: Tokens
    ghost var faults: nat          // store steps of this call that did not commit

    /** The call is part of a disciplined run and still holds its tokens. */
    ghost predicate Valid()
      reads this
    {
      Reachable(w) && Holds(w, tokens)
    }

    constructor (limit: nat, created: Times)
      ensures Valid() && w == Start(limit) && times == created
    {
      w, times := Start(limit), created;
      tokens := Tokens(None, None);
      faults := 0;
      new;
      StartReachable(limit);
    }

    /** Other callers run. */
    method Yield()
      requires Valid()
      modifies this`w
      ensures Valid() && Rely(old(w), w, tokens)
    {
      RelyRefl(w, tokens);
    }

    /** One licensed step of this call, taken after others ran; the store may refuse it or fail. */
    method Commit(a: Action) returns (o: Outcome, ghost at: World)
      requires Valid() && Licensed(w, a) && Spares(a, tokens)
      modifies this`w, this`faults
      ensures Valid() && Reachable(at) && Rely(old(w), at, tokens) && Rely(old(w), w, tokens)
      ensures w.epoch == at.epoch == old(w).epoch
      ensures o.Done? ==> Apply(at, a) == Some(w)
      ensures !o.Done? ==> w == at
      ensures o.Refused? ==> Apply(at, a).None?
      ensures faults == old(faults) + (if Stores(a) && !o.Done? then 1 else 0)
    {
      Yield();
      at := w;
      RelyKeepsTokens(old(w), w, tokens);
      RelyKeepsLicence(old(w), w, tokens, a);
      o := CommitNow(a);
      RelyTransitive(old(w), at, w, tokens);
    }

    /** A step taken in the very world this call has just read, as one store transaction. */
    method CommitNow(a: Action) returns (o: Outcome)
      requires Valid() && Licensed(w, a) && Spares(a, tokens)
      modifies this`w, this`faults
      ensures Valid() && Rely(old(w), w, tokens) && w.epoch == old(w).epoch
      ensures o.Done? ==> Apply(old(w), a) == Some(w)
      ensures !o.Done? ==> w == old(w)
      ensures o.Refused? ==> Apply(old(w), a).None?
      ensures faults == old(faults) + (if Stores(a) && !o.Done? then 1 else 0)
    {
      RelyRefl(w, tokens);
      o := StoreError;
      var broken: bool := *;
      if !broken {
        var next := Apply(w, a);
        if next.None? {
          o := Refused;
        } else {
          CommitFacts(w, a, next.value, tokens);
          w := next.value;
          o := Done;
        }
      }
      if Stores(a) && !o.Done? {
        faults := faults + 1;
      }
    }

    /** One store or runtime step on a session row, seen as a step of that row. */
    method OnRow(x: SessionId, op: SessionOp) returns (o: Outcome, ghost b: SessionRow)
      requires Valid() && x in w.sessions && SessionLicence(w.epoch, w.sessions[x], op)
      requires !UsesCreation(OnSession(x, op), x)
      modifies this`w, this`faults
      ensures Valid() && Rely(old(w), w, tokens) && w.epoch == old(w).epoch
      ensures x in w.sessions && SessionLater(old(w).sessions[x], b) && SessionOk(w.epoch, b)
      ensures o.Done? ==> SessionStep(w.epoch, b, op) == Some(w.sessions[x])
      ensures !o.Done? ==> w.sessions[x] == b
      ensures o.Refused? ==> SessionStep(w.epoch, b, op).None?
      ensures faults == old(faults) + (if Stores(OnSession(x, op)) && !o.Done? then 1 else 0)
    {
      ghost var at;
      o, at := Commit(OnSession(x, op));
      RelyKeepsSession(old(w), at, tokens, x);
      b := at.sessions[x];
    }

    /** The runtime's cleanup or stop of a whole session; it counts only when it is confirmed. */
    method StopRuntime(x: SessionId) returns (confirmed: bool)
      requires Valid() && x in w.sessions && !CreationInFlight(w, x)
      modifies this`w, this`faults
      ensures Valid() && Rely(old(w), w, tokens) && w.epoch == old(w).epoch
      ensures x in w.sessions && SessionLater(old(w).sessions[x], w.sessions[x]) && (confirmed ==> Gone(w, x))
      ensures faults == old(faults)
    {
      var o, _ := OnRow(x, Stopped);
      confirmed := o.Done?;
      RelyKeepsSession(old(w), w, tokens, x);
    }

    /** One store or runtime step on a command row, seen as a step of that row. */
    method OnCommandRow(c: CommandId, op: CommandOp) returns (o: Outcome, ghost b: CommandRow)
      requires Valid() && c in w.commands && (op.Move? || op.Boundary?)
      modifies this`w, this`faults
      ensures Valid() && Rely(old(w), w, tokens) && w.epoch == old(w).epoch
      ensures Seen(w, c, old(w).commands[c]) && CommandLater(old(w).commands[c], b)
      ensures o.Done? && op.Move? ==> CommandEdge(b.state, op.to) && w.commands[c].state == op.to
      ensures o.Done? && op.Boundary? ==> Ended(w, c)
      ensures faults == old(faults) + (if op.Move? && !o.Done? then 1 else 0)
    {
      ghost var at;
      o, at := Commit(OnCommand(c, op));
      RelyKeepsCommand(old(w), at, tokens, c);
      RelyKeepsCommand(old(w), w, tokens, c);
      b := at.commands[c];
    }

    /** CompleteRunningCommand: terminal command state, session state and slot release in one transaction. */
    method Complete(c: CommandId, to: CommandState, sessionNext: SessionState, release: bool) returns (o: Outcome)
      requires Valid() && c in w.commands && (release ==> Ended(w, c))
      modifies this`w, this`faults
      ensures Valid() && Rely(old(w), w, tokens) && w.epoch == old(w).epoch
      ensures Seen(w, c, old(w).commands[c])
      ensures o.Done? ==>
                w.commands[c].state == to && CommandTerminal(to) && InState(w, w.commands[c].session, sessionNext)
      ensures o.Done? && release ==> w.commands[c].slot == Some(Released)
      ensures faults == old(faults) + (if o.Done? then 0 else 1)
    {
      ghost var at;
      o, at := Commit(CompleteCommand(c, to, sessionNext, release));
      RelyKeepsCommand(old(w), at, tokens, c);
      RelyKeepsCommand(old(w), w, tokens, c);
    }

    /** GetCommand; None is a failed read or a missing row. */
    method ReadCommand(c: CommandId) returns (row: Option<CommandRow>)
      requires Valid()
      modifies this`w
      ensures Valid() && Rely(old(w), w, tokens) && w.epoch == old(w).epoch
      ensures row.Some? ==> c in w.commands && row.value == w.commands[c] && Seen(w, c, row.value)
      ensures c in old(w).commands ==> Seen(w, c, old(w).commands[c])
    {
      Yield();
      RelyKeepsTokens(old(w), w, tokens);
      if c in old(w).commands {
        RelyKeepsCommand(old(w), w, tokens, c);
      }
      var broken: bool := *;
      if broken || c !in w.commands {
        return None;
      }
      row := Some(w.commands[c]);
      SeenNow(w, c);
    }

    // ---- CreateSession ----

    /** A step of this call's own creating token. */
    method UseCreation(x: SessionId, op: SessionOp)
      requires Valid() && tokens.creating == Some(x) && UsesCreation(OnSession(x, op), x)
      requires op.NeverStarted? ==> !w.sessions[x].alive
      modifies this
      ensures Valid() && Rely(old(w), w, tokens.(creating := None)) && w.epoch == old(w).epoch
      ensures tokens == (if op.Spawn? then old(tokens) else old(tokens).(creating := None))
      ensures x in w.sessions && SessionStep(w.epoch, old(w).sessions[x], op) == Some(w.sessions[x])
    {
      Yield();
      var next := Apply(w, OnSession(x, op));
      UseFacts(old(w), w, x, op, next, tokens);
      w := next.value;
      if !op.Spawn? {
        tokens := tokens.(creating := None);
      }
    }

    /** Prepare: an error without a generation declares that nothing exists; anything else may exist. */
    method Prepare(x: SessionId) returns (answer: PrepareAnswer)
      requires Valid() && tokens.creating == Some(x) && !w.sessions[x].alive
      modifies this
      ensures Valid() && Rely(old(w), w, tokens.(creating := None)) && x in w.sessions && w.epoch == old(w).epoch
      ensures tokens == (if answer == PrepareFailed(false) then old(tokens).(creating := None) else old(tokens))
      ensures answer == PrepareFailed(false) ==> Gone(w, x)
    {
      var failed: bool := *;
      var generation: bool := *;
      answer := if failed then PrepareFailed(generation) else Prepared(generation);
      UseCreation(x, if answer == PrepareFailed(false) then NeverStarted else Spawn);
    }

    /** finishPreStartRuntimeFailure: nothing ever existed, so the failed state and the release are one write. */
    method FinishPreStartFailure(x: SessionId) returns (r: CreateResult)
      requires Valid() && Gone(w, x)
      modifies this`w, this`faults
      ensures Valid() && Rely(old(w), w, tokens) && x in w.sessions
      ensures r.RuntimeFailed? || r.Unrecorded?
      ensures r.RuntimeFailed? ==> FailureRecorded(w, x, r.row, true) && r.row.state.Failed?
    {
      var o, _ := OnRow(x, FailPreStart);
      r := if o.Done? then RuntimeFailed(w.sessions[x]) else Unrecorded;
    }

    /** finishRuntimeFailure: a confirmed cleanup of a known generation releases together with the failed
        state; an unconfirmed one keeps the reservation and records lost. */
    method FinishRuntimeFailure(x: SessionId, generation: bool) returns (r: CreateResult, confirmed: bool)
      requires Valid() && x in w.sessions && !CreationInFlight(w, x)
      modifies this`w, this`faults
      ensures Valid() && Rely(old(w), w, tokens) && x in w.sessions
      ensures r.RuntimeFailed? || r.Unrecorded?
      ensures r.RuntimeFailed? ==> FailureRecorded(w, x, r.row, generation) && (r.row.state.Failed? <==> confirmed)
    {
      confirmed := StopRuntime(x);
      ghost var mid := w;
      var op := if confirmed && generation then CompleteFailedCreation
                else CompleteCreation(if confirmed then SessionState.Failed else SessionState.Lost, generation);
      var o, _ := OnRow(x, op);
      RelyTransitive(old(w), mid, w, tokens);
      r := if o.Done? then RuntimeFailed(w.sessions[x]) else Unrecorded;
    }

    /** The part of CreateSession between a successful Prepare and the ready state. */
    method StartPrepared(x: SessionId) returns (r: CreateResult)
      requires Valid() && tokens.creating == Some(x)
      modifies this
      ensures Valid() && tokens == old(tokens).(creating := None) && Rely(old(w), w, tokens) && x in w.sessions
      ensures r.Created? || r.RuntimeFailed? || r.Unrecorded?
      ensures r.Created? ==> r.row == w.sessions[x] && r.row.state.Ready? && r.row.generation
      ensures r.RuntimeFailed? ==> FailureRecorded(w, x, r.row, true)
    {
      UseCreation(x, Spawn);
      ghost var w1 := w;
      UseCreation(x, EndCreation);
      ghost var w2 := w;
      RelyTransitive(old(w), w1, w, tokens);
      var started: bool := *;
      if started {
        var o, _ := OnRow(x, CompleteCreation(Ready, true));
        RelyTransitive(old(w), w2, w, tokens);
        if o.Done? {
          return Created(w.sessions[x]);
        }
        RelyKeepsSession(w2, w, tokens, x);
      }
      ghost var w3 := w;
      var confirmed;
      r, confirmed := FinishRuntimeFailure(x, true);
      RelyTransitive(old(w), w3, w, tokens);
    }

    /** What CreateSession does with the answer of Prepare. */
    method FinishCreation(x: SessionId, prepared: PrepareAnswer) returns (r: CreateResult)
      requires Valid() && x in w.sessions
      requires if prepared == PrepareFailed(false) then tokens.creating.None? && Gone(w, x)
               else tokens.creating == Some(x)
      modifies this
      ensures Valid() && tokens == old(tokens).(creating := None) && Rely(old(w), w, tokens) && x in w.sessions
      ensures r.Created? || r.RuntimeFailed? || r.Unrecorded?
      ensures r.Created? ==> r.row == w.sessions[x] && r.row.state.Ready? && r.row.generation
      ensures r.RuntimeFailed? ==> FailureRecorded(w, x, r.row, prepared != Prepared(false))
    {
      if prepared == PrepareFailed(false) {
        r := FinishPreStartFailure(x);
      } else if prepared == Prepared(true) {
        r := StartPrepared(x);
      } else {
        UseCreation(x, EndCreation);
        ghost var mid := w;
        var confirmed;
        r, confirmed := FinishRuntimeFailure(x, prepared.generation);
        RelyTransitive(old(w), mid, w, tokens);
      }
    }

    /** CreateSession.  Every accepted creation that is not left unrecorded by the store ends settled:
        ready with a generation, failed with the proof (and the release when a generation is known), or
        lost with the reservation kept.  A duplicate starts nothing. */
    method CreateSession(x: SessionId) returns (r: CreateResult)
      requires Valid() && tokens.creating.None?
      modifies this
      ensures Valid() && tokens == old(tokens) && Rely(old(w), w, tokens)
      ensures r.Created? ==> InState(w, x, Ready) && w.sessions[x] == r.row && r.row.generation
      ensures r.RuntimeFailed? ==> FailureRecorded(w, x, r.row, false)
      ensures r.Duplicate? ==> x in w.sessions && w.sessions[x] == r.row
    {
      RelyRefl(w, tokens);
      var denied: bool := *;
      if denied {
        return Denied;
      }
      var o, at := Commit(AcceptCreate(x));
      if o.Refused? && x in w.sessions {
        return Duplicate(w.sessions[x]);
      }
      if !o.Done? {
        return NotAccepted;
      }
      tokens := tokens.(creating := Some(x));
      ghost var w1 := w;
      var prepared := Prepare(x);
      ghost var w2 := w;
      RelyTransitive(old(w), w1, w, old(tokens));
      r := FinishCreation(x, prepared);
      RelyTransitive(old(w), w2, w, old(tokens));
    }
  }

  /** Store transactions, as opposed to answers of the runtime and to what a call does on its own. */
  predicate Stores(a: Action) {
    match a
    case OnSession(_, op) => !(op.Spawn? || op.NeverStarted? || op.EndCreation? || op.Stopped?)
    case OnCommand(_, op) => op.Move?
    case Crash => false
    case _ => true
  }

  /** r is an earlier snapshot of command c. */
  predicate Seen(w: World, c: CommandId, r: CommandRow) {
    c in w.commands && CommandLater(r, w.commands[c])
  }

  lemma SeenNow(w: World, c: CommandId)
    requires c in w.commands
    ensures Seen(w, c, w.commands[c])
  {
  }

  lemma SeenLater(u: World, v: World, t: Tokens, c: CommandId, r: CommandRow)
    requires Reachable(u) && Rely(u, v, t) && Seen(u, c, r)
    ensures Seen(v, c, r)
  {
    RelyKeepsCommand(u, v, t, c);
  }

  predicate FailureRecorded(w: World, x: SessionId, row: SessionRow, generation: bool) {
    && x in w.sessions && w.sessions[x] == row
    && (row.state.Failed? || row.state.Lost?)
    && (row.state.Failed? ==> row.gone && (generation ==> row.reservation.Released?))
  }

  lemma CommitFacts(w: World, a: Action, v: World, t: Tokens)
    requires Reachable(w) && Holds(w, t) && Licensed(w, a) && Spares(a, t) && Apply(w, a) == Some(v)
    ensures Reachable(v) && Holds(v, t) && Rely(w, v, t) && v.epoch == w.epoch
  {
    StepRely(w, a, v, t);
    RelyKeepsTokens(w, v, t);
  }

  /** Using one's own creating token is invisible to every other token. */
  lemma UseFacts(start: World, w: World, x: SessionId, op: SessionOp, next: Option<World>, t: Tokens)
    requires Reachable(start) && Holds(start, t) && Rely(start, w, t) && t.creating == Some(x)
    requires UsesCreation(OnSession(x, op), x) && next == Apply(w, OnSession(x, op))
    requires op.NeverStarted? ==> !start.sessions[x].alive
    ensures next.Some? && Reachable(next.value) && Rely(start, next.value, t.(creating := None))
    ensures next.value.epoch == start.epoch && Holds(next.value, if op.Spawn? then t else t.(creating := None))
    ensures x in next.value.sessions && SessionStep(start.epoch, start.sessions[x], op) == Some(next.value.sessions[x])
  {
    var s := t.(creating := None);
    RelyKeepsTokens(start, w, t);
    RelyFewer(start, w, t, s);
    StepRely(w, OnSession(x, op), next.value, s);
    RelyTransitive(start, w, next.value, s);
    RelyKeepsTokens(start, next.value, s);
  }
}
