/** Whole runs of the execution authority: what holds after every licensed sequence of store
    transactions, runtime events and crashes. */
module Runs {
  import opened Common
  import opened Lifecycle
  import opened Authority

  function Start(limit: nat): World {
    World(map[], map[], map[], limit, 0)
  }

  /** The world that a trace leads to; None when some transaction of the trace would have been refused. */
  function Run(start: World, trace: seq<Action>): Option<World>
    decreases |trace|
  {
    if trace == [] then Some(start) else
      var before := Run(start, trace[..|trace| - 1]);
      if before.None? then None else Apply(before.value, trace[|trace| - 1])
  }

  /** Every action of the trace was licensed in the world it met. */
  predicate Disciplined(start: World, trace: seq<Action>) {
    forall i | 0 <= i < |trace| ::
      Run(start, trace[..i]).Some? && Licensed(Run(start, trace[..i]).value, trace[i])
  }

  lemma DisciplinedPrefix(start: World, trace: seq<Action>, n: nat)
    requires Disciplined(start, trace) && n <= |trace|
    ensures Disciplined(start, trace[..n])
  {
    forall i | 0 <= i < n
      ensures Run(start, trace[..n][..i]).Some? && Licensed(Run(start, trace[..n][..i]).value, trace[..n][i])
    {
      assert trace[..n][..i] == trace[..i];
    }
  }

  lemma {:induction false} RunInv(start: World, trace: seq<Action>)
    requires Inv(start) && Disciplined(start, trace) && Run(start, trace).Some?
    ensures Inv(Run(start, trace).value) && Run(start, trace).value.limit == start.limit
    decreases |trace|
  {
    if trace != [] {
      var n := |trace| - 1;
      DisciplinedPrefix(start, trace, n);
      RunInv(start, trace[..n]);
      StepSound(Run(start, trace[..n]).value, trace[n]);
    }
  }

  /** Later worlds of a run never take back what earlier ones settled. */
  lemma {:induction false} RunGrows(start: World, trace: seq<Action>, n: nat)
    requires Inv(start) && Disciplined(start, trace) && Run(start, trace).Some? && n <= |trace|
    ensures Run(start, trace[..n]).Some? && Grows(Run(start, trace[..n]).value, Run(start, trace).value)
    decreases |trace| - n
  {
    if n == |trace| {
      assert trace[..n] == trace;
      GrowsRefl(Run(start, trace).value);
    } else {
      var w := Run(start, trace[..n]).value;
      RunGrows(start, trace, n + 1);
      DisciplinedPrefix(start, trace, n);
      RunInv(start, trace[..n]);
      assert trace[..n + 1][..n] == trace[..n];
      StepSound(w, trace[n]);
      GrowsTransitive(w, Run(start, trace[..n + 1]).value, Run(start, trace).value);
    }
  }

  lemma GrowsRefl(w: World)
    ensures Grows(w, w)
  {
  }

  lemma StartInv(limit: nat)
    ensures Inv(Start(limit))
  {
    assert LiveReservations(Start(limit)) == {} && LiveSlots(Start(limit)) == {};
  }

  lemma AliveIsHeld(w: World)
    requires Rows(w)
    ensures AliveSessions(w) <= LiveReservations(w)
  {
    forall x | x in AliveSessions(w) ensures x in LiveReservations(w) {
      assert SessionOk(w.epoch, w.sessions[x]);
    }
  }

  lemma RunningIsHeld(w: World)
    requires Rows(w)
    ensures RunningScripts(w) <= LiveSlots(w)
  {
    forall c | c in RunningScripts(w) ensures c in LiveSlots(w) {
      assert CommandOk(w.epoch, w.sessions[w.commands[c].session], w.commands[c]);
      assert w.commands[c].slot.value.Held?;
    }
  }

  /** Live runtimes never exceed held reservations, running scripts never exceed held slots, and
      both stay within their limits. */
  lemma CapacityIsNeverOverrun(limit: nat, trace: seq<Action>)
    requires Disciplined(Start(limit), trace) && Run(Start(limit), trace).Some?
    ensures var w := Run(Start(limit), trace).value;
            && AliveSessions(w) <= LiveReservations(w) && |AliveSessions(w)| <= |LiveReservations(w)| <= limit
            && RunningScripts(w) <= LiveSlots(w) && |RunningScripts(w)| <= |LiveSlots(w)| <= RUNNING_COMMAND_LIMIT
  {
    StartInv(limit);
    RunInv(Start(limit), trace);
    var w := Run(Start(limit), trace).value;
    AliveIsHeld(w);
    RunningIsHeld(w);
    SubsetSize(AliveSessions(w), LiveReservations(w));
    SubsetSize(RunningScripts(w), LiveSlots(w));
  }

  predicate ProvesGone(a: Action, x: SessionId) {
    a == OnSession(x, Stopped) || a == OnSession(x, NeverStarted)
  }

  predicate Proved(trace: seq<Action>, x: SessionId) {
    exists i :: 0 <= i < |trace| && ProvesGone(trace[i], x)
  }

  predicate Bounds(trace: seq<Action>, c: CommandId) {
    exists i :: 0 <= i < |trace| && trace[i] == OnCommand(c, Boundary)
  }

  lemma GoneStep(w: World, a: Action, x: SessionId)
    requires Apply(w, a).Some? && Gone(Apply(w, a).value, x)
    ensures Gone(w, x) || ProvesGone(a, x)
  {
  }

  lemma EndedStep(w: World, a: Action, c: CommandId)
    requires Apply(w, a).Some? && c in Apply(w, a).value.commands && Apply(w, a).value.commands[c].ended
    ensures (c in w.commands && w.commands[c].ended) || a == OnCommand(c, Boundary)
  {
  }

  lemma {:induction false} GoneHasProof(limit: nat, trace: seq<Action>, x: SessionId)
    requires Run(Start(limit), trace).Some? && Gone(Run(Start(limit), trace).value, x)
    ensures Proved(trace, x)
    decreases |trace|
  {
    var n := |trace| - 1;
    if trace != [] {
      GoneStep(Run(Start(limit), trace[..n]).value, trace[n], x);
      if Gone(Run(Start(limit), trace[..n]).value, x) {
        GoneHasProof(limit, trace[..n], x);
        var i :| 0 <= i < n && ProvesGone(trace[..n][i], x);
        assert ProvesGone(trace[i], x);
      }
    }
  }

  lemma {:induction false} EndedHasBoundary(limit: nat, trace: seq<Action>, c: CommandId)
    requires Run(Start(limit), trace).Some? && c in Run(Start(limit), trace).value.commands
             && Run(Start(limit), trace).value.commands[c].ended
    ensures Bounds(trace, c)
    decreases |trace|
  {
    var n := |trace| - 1;
    if trace != [] {
      var w := Run(Start(limit), trace[..n]).value;
      EndedStep(w, trace[n], c);
      if c in w.commands && w.commands[c].ended {
        EndedHasBoundary(limit, trace[..n], c);
        var i :| 0 <= i < n && trace[..n][i] == OnCommand(c, Boundary);
        assert trace[i] == OnCommand(c, Boundary);
      }
    }
  }

  /** A released reservation follows a proof event for its own session; a released slot follows the
      boundary of its own command or such a proof for the command's session. */
  lemma ReleasesFollowProofs(limit: nat, trace: seq<Action>)
    requires Disciplined(Start(limit), trace) && Run(Start(limit), trace).Some?
    ensures var w := Run(Start(limit), trace).value;
            && (forall x | x in w.sessions && w.sessions[x].reservation.Released? :: Proved(trace, x))
            && (forall c | c in w.commands && w.commands[c].slot == Some(Released) ::
                  Bounds(trace, c) || Proved(trace, w.commands[c].session))
  {
    StartInv(limit);
    RunInv(Start(limit), trace);
    var w := Run(Start(limit), trace).value;
    forall x | x in w.sessions && w.sessions[x].reservation.Released? ensures Proved(trace, x) {
      GoneHasProof(limit, trace, x);
    }
    forall c | c in w.commands && w.commands[c].slot == Some(Released)
      ensures Bounds(trace, c) || Proved(trace, w.commands[c].session)
    {
      if w.commands[c].ended {
        EndedHasBoundary(limit, trace, c);
      } else {
        GoneHasProof(limit, trace, w.commands[c].session);
      }
    }
  }

  /** How often a trace hands the script of c to the runtime. */
  function Sends(trace: seq<Action>, c: CommandId): nat
    decreases |trace|
  {
    if trace == [] then 0
    else Sends(trace[..|trace| - 1], c) + (if trace[|trace| - 1] == OnCommand(c, Send) then 1 else 0)
  }

  function SentOf(w: World, c: CommandId): nat {
    if c in w.commands then w.commands[c].sent else 0
  }

  lemma SentStep(w: World, a: Action, c: CommandId)
    requires Apply(w, a).Some?
    ensures SentOf(Apply(w, a).value, c) == SentOf(w, c) + (if a == OnCommand(c, Send) then 1 else 0)
  {
  }

  lemma {:induction false} SendsAreCounted(limit: nat, trace: seq<Action>, c: CommandId)
    requires Run(Start(limit), trace).Some?
    ensures Sends(trace, c) == SentOf(Run(Start(limit), trace).value, c)
    decreases |trace|
  {
    if trace != [] {
      var n := |trace| - 1;
      SendsAreCounted(limit, trace[..n], c);
      SentStep(Run(Start(limit), trace[..n]).value, trace[n], c);
    }
  }

  /** No script reaches the runtime twice, whatever crashes and resumptions the run contains. */
  lemma ScriptIsSentAtMostOnce(limit: nat, trace: seq<Action>, c: CommandId)
    requires Disciplined(Start(limit), trace) && Run(Start(limit), trace).Some?
    ensures Sends(trace, c) <= 1
  {
    StartInv(limit);
    RunInv(Start(limit), trace);
    SendsAreCounted(limit, trace, c);
  }

  /** One terminal state per command, one release per slot and per reservation. */
  lemma SettledOnce(limit: nat, trace: seq<Action>, n: nat)
    requires Disciplined(Start(limit), trace) && Run(Start(limit), trace).Some? && n <= |trace|
    ensures Run(Start(limit), trace[..n]).Some?
    ensures var u, w := Run(Start(limit), trace[..n]).value, Run(Start(limit), trace).value;
            && (forall c | c in w.commands :: w.commands[c].terminalWrites <= 1 && w.commands[c].slotReleases <= 1)
            && (forall x | x in w.sessions :: w.sessions[x].releases <= 1)
            && (forall c | Finished(u, c) :: c in w.commands && w.commands[c].state == u.commands[c].state)
            && (forall x | x in u.sessions && SessionTerminal(u.sessions[x].state) ::
                  InState(w, x, u.sessions[x].state))
  {
    StartInv(limit);
    RunInv(Start(limit), trace);
    RunGrows(Start(limit), trace, n);
  }

  /** Job phases never go back, and a complete job has its own session closed and its own command terminal. */
  lemma JobsOnlyAdvance(limit: nat, trace: seq<Action>, n: nat, j: JobId)
    requires Disciplined(Start(limit), trace) && Run(Start(limit), trace).Some? && n <= |trace|
    requires Run(Start(limit), trace[..n]).Some? && j in Run(Start(limit), trace[..n]).value.jobs
    ensures var u, w := Run(Start(limit), trace[..n]).value, Run(Start(limit), trace).value;
            && j in w.jobs && Advances(u.jobs[j].phase, w.jobs[j].phase)
            && w.jobs[j].session == u.jobs[j].session && w.jobs[j].command == u.jobs[j].command
            && (w.jobs[j].phase.Complete? ==> InState(w, w.jobs[j].session, Closed) && Finished(w, w.jobs[j].command))
  {
    StartInv(limit);
    RunInv(Start(limit), trace);
    RunGrows(Start(limit), trace, n);
    assert JobOk(Run(Start(limit), trace).value, Run(Start(limit), trace).value.jobs[j]);
  }

  // ---- closing a session whose creating call is still running ----

  /** The store and runtime steps of a confirmed close of an idle session. */
  function CloseSteps(x: SessionId): seq<Action> {
    [OnSession(x, Transition(Closing)), OnSession(x, Stopped), OnSession(x, Transition(Closed)),
     OnSession(x, ConfirmCleanup)]
  }

  function Steps(w: World, steps: seq<Action>): Option<World>
    decreases |steps|
  {
    if steps == [] then Some(w) else
      var next := Apply(w, steps[0]);
      if next.None? then None else Steps(next.value, steps[1..])
  }

  lemma CloseRuns(w: World, x: SessionId)
    requires InState(w, x, Creating)
    ensures Steps(w, CloseSteps(x)).Some?
    ensures var v := Steps(w, CloseSteps(x)).value;
            && v == w.(sessions := v.sessions) && v.sessions.Keys == w.sessions.Keys
            && v.sessions[x] == FreeReservation(w.sessions[x].(state := Closed, alive := false, gone := true))
  {
    var s := CloseSteps(x);
    var w1 := AfterOp(w, x, Transition(Closing));
    var w2 := AfterOp(w1, x, Stopped);
    var w3 := AfterOp(w2, x, Transition(Closed));
    var w4 := AfterOp(w3, x, ConfirmCleanup);
    StepsOnce(w, s);
    StepsOnce(w1, s[1..]);
    StepsOnce(w2, s[2..]);
    StepsOnce(w3, s[3..]);
    assert s[3..][1..] == [];
  }

  /** After a close of a session that was still creating, one more start gives a live runtime without
      a reservation exactly when the creating call was in flight when the close began. */
  lemma CloseDuringCreation(w: World, x: SessionId)
    requires InState(w, x, Creating)
    ensures Steps(w, CloseSteps(x)).Some?
    ensures var v := Apply(Steps(w, CloseSteps(x)).value, OnSession(x, Spawn));
            (v.Some? && x in AliveSessions(v.value) && x !in LiveReservations(v.value)) <==> CreationInFlight(w, x)
  {
    CloseRuns(w, x);
  }

  function AfterOp(w: World, x: SessionId, op: SessionOp): (v: World)
    requires x in w.sessions && SessionStep(w.epoch, w.sessions[x], op).Some?
    ensures Apply(w, OnSession(x, op)) == Some(v)
    ensures v == w.(sessions := v.sessions) && v.sessions.Keys == w.sessions.Keys
    ensures v.sessions[x] == SessionStep(w.epoch, w.sessions[x], op).value
  {
    PutSession(w, x, SessionStep(w.epoch, w.sessions[x], op).value)
  }

  lemma StepsOnce(w: World, steps: seq<Action>)
    requires |steps| > 0 && Apply(w, steps[0]).Some?
    ensures Steps(w, steps) == Steps(Apply(w, steps[0]).value, steps[1..])
  {
  }

  /** A concrete run into that trap: disciplined up to the close, whose two transitions and stop are all
      unlicensed while the creating call runs.  The creating call then starts a runtime without a
      reservation, and the freed capacity lets a second session start beyond a limit of one. */
  lemma CloseDuringCreationIsReachable() returns (trace: seq<Action>, w: World, v: World, u: World)
    ensures Disciplined(Start(1), trace) && Run(Start(1), trace) == Some(w) && InState(w, 0, Creating)
    ensures Steps(w, CloseSteps(0) + [OnSession(0, Spawn)]) == Some(v)
    ensures 0 in AliveSessions(v) && 0 !in LiveReservations(v)
    ensures Steps(v, [AcceptCreate(1), OnSession(1, Spawn)]) == Some(u) && AliveSessions(u) == {0, 1}
    ensures u.limit == 1 && |AliveSessions(u)| > u.limit
  {
    trace, w := FirstCreation();
    var closed := AfterClose(w);
    var row := closed.sessions[0].(alive := true);
    v := PutSession(closed, 0, row);
    assert v.sessions == map[0 := row];
    assert Apply(closed, OnSession(0, Spawn)) == Some(v);
    StepsAppend(w, CloseSteps(0), OnSession(0, Spawn));
    u := StartAnother(v);
  }

  lemma FirstCreation() returns (trace: seq<Action>, w: World)
    ensures trace == [AcceptCreate(0)] && Disciplined(Start(1), trace) && Run(Start(1), trace) == Some(w)
    ensures w == World(map[0 := SessionRow(Creating, false, Held, false, false, Some(0), 0)], map[], map[], 1, 0)
  {
    trace := [AcceptCreate(0)];
    assert trace[..0] == [];
    assert LiveReservations(Start(1)) == {};
    assert Run(Start(1), trace[..0]) == Some(Start(1));
    w := Apply(Start(1), AcceptCreate(0)).value;
    assert w.sessions == map[0 := SessionRow(Creating, false, Held, false, false, Some(0), 0)];
  }

  /** The close alone leaves one settled session and no live reservation. */
  lemma AfterClose(w: World) returns (closed: World)
    requires w.sessions.Keys == {0} && InState(w, 0, Creating) && w.sessions[0].reservation.Held?
    ensures Steps(w, CloseSteps(0)) == Some(closed) && closed.sessions.Keys == {0}
    ensures closed == w.(sessions := closed.sessions)
    ensures closed.sessions[0] == FreeReservation(w.sessions[0].(state := Closed, alive := false, gone := true))
  {
    CloseRuns(w, 0);
    closed := Steps(w, CloseSteps(0)).value;
  }

  lemma StartAnother(v: World) returns (u: World)
    requires v.sessions.Keys == {0} && v.sessions[0].alive && v.sessions[0].reservation.Released? && v.limit == 1
    ensures Steps(v, [AcceptCreate(1), OnSession(1, Spawn)]) == Some(u) && AliveSessions(u) == {0, 1} && u.limit == 1
  {
    assert LiveReservations(v) == {};
    var mid := Apply(v, AcceptCreate(1)).value;
    u := AfterOp(mid, 1, Spawn);
    StepsOnce(v, [AcceptCreate(1), OnSession(1, Spawn)]);
    StepsOnce(mid, [OnSession(1, Spawn)]);
    assert u.sessions.Keys == {0, 1};
    assert AliveSessions(u) == {0, 1};
  }

  lemma {:induction false} StepsAppend(w: World, steps: seq<Action>, a: Action)
    requires Steps(w, steps).Some?
    ensures Steps(w, steps + [a]) == Apply(Steps(w, steps).value, a)
    decreases |steps|
  {
    var all := steps + [a];
    if steps == [] {
      assert all[1..] == [];
    } else {
      assert all[1..] == steps[1..] + [a];
      StepsAppend(Apply(w, steps[0]).value, steps[1..], a);
    }
  }

  /** What a caller can check: in every run a stored state other than creating rules the trap out. */
  lemma StoredStateIsAGuard(limit: nat, trace: seq<Action>, x: SessionId)
    requires Disciplined(Start(limit), trace) && Run(Start(limit), trace).Some?
    requires x in Run(Start(limit), trace).value.sessions
    ensures var w := Run(Start(limit), trace).value;
            !w.sessions[x].state.Creating? ==> !CreationInFlight(w, x) && Licensed(w, OnSession(x, Stopped))
  {
    StartInv(limit);
    RunInv(Start(limit), trace);
  }

  /** The store cannot tell the rest apart: the same stored rows occur with the creating call in flight and,
      after a crash, without it. */
  lemma CreatingIsAmbiguous() returns (trace: seq<Action>, w: World, v: World)
    ensures Disciplined(Start(1), trace) && Run(Start(1), trace) == Some(w) && InState(w, 0, Creating)
    ensures Disciplined(Start(1), trace + [Crash]) && Run(Start(1), trace + [Crash]) == Some(v)
    ensures v.sessions == w.sessions && v.commands == w.commands && v.jobs == w.jobs
    ensures CreationInFlight(w, 0) && !CreationInFlight(v, 0)
  {
    trace, w := FirstCreation();
    v := w.(epoch := 1);
    var all := trace + [Crash];
    assert all[..|all| - 1] == trace;
    forall i | 0 <= i < |all| ensures Run(Start(1), all[..i]).Some? && Licensed(Run(Start(1), all[..i]).value, all[i]) {
      assert i < |trace| ==> all[..i] == trace[..i];
    }
  }
}
