/** The startup sweep.  It runs before the executor serves anybody, so nobody steps between its steps;
    the store may still fail, and the process may still crash, between any two of them. */
module Startup {
  import opened Common
  import opened Lifecycle
  import opened Authority
  import opened Runs
  import opened Interference
  import opened ExecutionService
  import opened Closing

  // ---- what the sweep is meant to do, row by row ----

  predicate HasActive(w: World, x: SessionId) {
    exists c :: c in w.commands && w.commands[c].session == x && CommandActive(w.commands[c].state)
  }

  /** A failed session with a recorded generation may still hold a reservation of an older executor. */
  predicate Unreleased(r: SessionRow) {
    r.state.Failed? && r.generation && r.reservation.Held?
  }

  predicate Swept(r: SessionRow, isPreserved: bool) {
    !SessionTerminal(r.state) && !isPreserved
  }

  function ProvedIf(r: SessionRow, confirmed: bool): SessionRow {
    if confirmed then r.(alive := false, gone := true) else r
  }

  function ReleasedIf(r: SessionRow, confirmed: bool): SessionRow {
    if confirmed then FreeReservation(r) else r
  }

  /** The state a swept session ends in. */
  function EndState(state: SessionState, active: bool, confirmed: bool): SessionState {
    if !confirmed then SessionState.Lost
    else if state.Creating? then SessionState.Failed
    else if state.Closing? && !active then Closed
    else SessionState.Lost
  }

  function SessionAfter(r: SessionRow, active: bool, isPreserved: bool, confirmed: bool): SessionRow {
    if Unreleased(r) then ReleasedIf(ProvedIf(r, confirmed), confirmed)
    else if !Swept(r, isPreserved) then r
    else ReleasedIf(ProvedIf(r, confirmed).(state := EndState(r.state, active, confirmed)), confirmed)
  }

  function CommandAfter(r: CommandRow, swept: bool, confirmed: bool): CommandRow {
    if !swept then r
    else if CommandActive(r.state) then
      if confirmed then FreeSlot(Write(r, CommandState.Lost)) else Write(r, CommandState.Lost)
    else if r.state.Queued? then Write(r, Rejected)
    else r
  }

  ghost function SessionGoal(u: World, x: SessionId, done: set<SessionId>, preserved: Option<SessionId>,
                             answers: set<SessionId>): SessionRow
    requires x in u.sessions
  {
    if x in done then SessionAfter(u.sessions[x], HasActive(u, x), preserved == Some(x), x in answers)
        else u.sessions[x]
  }

  ghost function CommandGoal(u: World, c: CommandId, done: set<SessionId>, preserved: Option<SessionId>,
                             answers: set<SessionId>): CommandRow
    requires c in u.commands
  {
    var x := u.commands[c].session;
    if x in done && x in u.sessions
    then CommandAfter(u.commands[c], Swept(u.sessions[x], preserved == Some(x)), x in answers)
    else u.commands[c]
  }

  ghost predicate SameFrame(u: World, w: World) {
    && w.sessions.Keys == u.sessions.Keys && w.commands.Keys == u.commands.Keys
    && w.jobs == u.jobs && w.limit == u.limit && w.epoch == u.epoch
  }

  /** w is u after the sweep of the sessions in `done`; the runtime confirms the cleanup of those in `answers`. */
  ghost predicate SweepOf(u: World, w: World, done: set<SessionId>, preserved: Option<SessionId>,
                          answers: set<SessionId>) {
    && SameFrame(u, w)
    && (forall x | x in u.sessions :: w.sessions[x] == SessionGoal(u, x, done, preserved, answers))
    && (forall c | c in u.commands :: w.commands[c] == CommandGoal(u, c, done, preserved, answers))
  }

  ghost predicate FullSweep(u: World, w: World, preserved: Option<SessionId>, answers: set<SessionId>) {
    SweepOf(u, w, u.sessions.Keys, preserved, answers)
  }

  // ---- the properties of a whole sweep ----

  lemma RowSettles(epoch: nat, r: SessionRow, active: bool, isPreserved: bool, confirmed: bool)
    requires SessionOk(epoch, r)
    ensures var s := SessionAfter(r, active, isPreserved, confirmed);
            && (SessionTerminal(s.state) || isPreserved)
            && (SessionTerminal(r.state) ==> s.state == r.state)
            && (s.reservation != r.reservation ==> confirmed)
            && (Unreleased(s) ==> !confirmed || (isPreserved && !SessionTerminal(r.state)))
  {
  }

  lemma RowStable(epoch: nat, r: SessionRow, active: bool, again: bool, isPreserved: bool, confirmed: bool)
    requires SessionOk(epoch, r)
    ensures var s := SessionAfter(r, active, isPreserved, confirmed);
            SessionAfter(s, again, isPreserved, confirmed) == s
  {
  }

  lemma CommandSettles(r: CommandRow, swept: bool, confirmed: bool)
    ensures var s := CommandAfter(r, swept, confirmed);
            && s.session == r.session && (swept ==> CommandTerminal(s.state))
            && (s.slot != r.slot ==> confirmed)
  {
  }

  /** Everything but the preserved session is terminal, with every command of a swept session, whatever
      the runtimes answered; and only confirmed cleanups released anything. */
  lemma SweepSettles(u: World, w: World, preserved: Option<SessionId>, answers: set<SessionId>)
    requires Inv(u) && FullSweep(u, w, preserved, answers)
    ensures forall x | x in w.sessions && preserved != Some(x) :: SessionTerminal(w.sessions[x].state)
    ensures forall c | c in w.commands
            && Swept(u.sessions[u.commands[c].session], preserved == Some(u.commands[c].session)) ::
              Finished(w, c)
    ensures forall x | x in w.sessions && w.sessions[x].reservation != u.sessions[x].reservation :: x in answers
    ensures forall c | c in w.commands && w.commands[c].slot != u.commands[c].slot :: u.commands[c].session in answers
  {
    forall x | x in u.sessions
      ensures SessionTerminal(w.sessions[x].state) || preserved == Some(x)
      ensures w.sessions[x].reservation != u.sessions[x].reservation ==> x in answers
    {
      RowSettles(u.epoch, u.sessions[x], HasActive(u, x), preserved == Some(x), x in answers);
    }
    forall c | c in u.commands
      ensures Swept(u.sessions[u.commands[c].session], preserved == Some(u.commands[c].session)) ==> Finished(w, c)
      ensures w.commands[c].slot != u.commands[c].slot ==> u.commands[c].session in answers
    {
      var x := u.commands[c].session;
      CommandSettles(u.commands[c], Swept(u.sessions[x], preserved == Some(x)), x in answers);
    }
  }

  lemma SameMap<K, V>(a: map<K, V>, b: map<K, V>)
    requires a.Keys == b.Keys && forall k | k in a :: a[k] == b[k]
    ensures a == b
  {
  }

  lemma SessionsStable(u: World, v: World, w: World, preserved: Option<SessionId>, answers: set<SessionId>)
    requires Rows(u) && FullSweep(u, v, preserved, answers) && FullSweep(v, w, preserved, answers)
    ensures w.sessions == v.sessions
  {
    forall x | x in v.sessions ensures w.sessions[x] == v.sessions[x] {
      SessionStable(u, v, w, preserved, answers, x);
    }
    SameMap(w.sessions, v.sessions);
  }

  lemma CommandsStable(u: World, v: World, w: World, preserved: Option<SessionId>, answers: set<SessionId>)
    requires Rows(u) && FullSweep(u, v, preserved, answers) && FullSweep(v, w, preserved, answers)
    ensures w.commands == v.commands
  {
    forall c | c in v.commands ensures w.commands[c] == v.commands[c] {
      CommandStable(u, v, w, preserved, answers, c);
    }
    SameMap(w.commands, v.commands);
  }

  /** A sweep that finds the result of a sweep, with the same answers, changes nothing at all. */
  lemma SecondSweepChangesNothing(u: World, v: World, w: World, preserved: Option<SessionId>, answers: set<SessionId>)
    requires Inv(u) && FullSweep(u, v, preserved, answers) && FullSweep(v, w, preserved, answers)
    ensures w == v
  {
    SessionsStable(u, v, w, preserved, answers);
    CommandsStable(u, v, w, preserved, answers);
  }

  lemma SessionStable(u: World, v: World, w: World, preserved: Option<SessionId>, answers: set<SessionId>, x: SessionId)
    requires Rows(u) && FullSweep(u, v, preserved, answers) && FullSweep(v, w, preserved, answers) && x in v.sessions
    ensures w.sessions[x] == v.sessions[x]
  {
    RowStable(u.epoch, u.sessions[x], HasActive(u, x), HasActive(v, x), preserved == Some(x), x in answers);
  }

  lemma CommandStable(u: World, v: World, w: World, preserved: Option<SessionId>, answers: set<SessionId>, c: CommandId)
    requires Rows(u) && FullSweep(u, v, preserved, answers) && FullSweep(v, w, preserved, answers) && c in v.commands
    ensures w.commands[c] == v.commands[c]
  {
    var x := u.commands[c].session;
    CommandSettles(u.commands[c], Swept(u.sessions[x], preserved == Some(x)), x in answers);
    RowSettles(u.epoch, u.sessions[x], HasActive(u, x), preserved == Some(x), x in answers);
  }

  // ---- the sweep as the executor runs it ----

  /** An executor nobody else is using: before it serves, or stopped for a repair. */
  class Offline {
    var w: World

    constructor (world: World)
      requires Reachable(world)
      ensures w == world
    {
      w := world;
    }

    /** One store transaction that its guards accept; only the store itself may fail. */
    method Step(a: Action) returns (ok: bool)
      requires Reachable(w) && Licensed(w, a) && Apply(w, a).Some?
      modifies this
      ensures Reachable(w)
      ensures if ok then Apply(old(w), a) == Some(w) else w == old(w)
    {
      ok := *;
      if ok {
        ReachableStep(w, a, Apply(w, a).value);
        w := Apply(w, a).value;
      }
    }

    method StepRow(x: SessionId, op: SessionOp) returns (ok: bool)
      requires Reachable(w) && x in w.sessions && SessionLicence(w.epoch, w.sessions[x], op)
      requires SessionStep(w.epoch, w.sessions[x], op).Some?
      modifies this
      ensures Reachable(w)
      ensures ok ==> w == PutSession(old(w), x, SessionStep(old(w).epoch, old(w).sessions[x], op).value)
    {
      ok := Step(OnSession(x, op));
    }

    /** The runtime's answer for one session; only a confirmation changes what is known. */
    method Reconcile(x: SessionId, confirmed: bool)
      requires Reachable(w) && x in w.sessions && !CreationInFlight(w, x)
      modifies this
      ensures Reachable(w) && w == PutSession(old(w), x, ProvedIf(old(w).sessions[x], confirmed))
    {
      if confirmed {
        ReachableStep(w, OnSession(x, Stopped), Apply(w, OnSession(x, Stopped)).value);
        w := Apply(w, OnSession(x, Stopped)).value;
      } else {
        assert w.sessions == w.sessions[x := w.sessions[x]];
      }
    }

    /** reconcileCreating. */
    method ReconcileCreating(x: SessionId, confirmed: bool) returns (ok: bool)
      requires Reachable(w) && InState(w, x, Creating) && !CreationInFlight(w, x)
      requires confirmed ==> w.sessions[x].gone
      modifies this
      ensures Reachable(w)
      ensures ok ==> var ended := old(w).sessions[x].(state := EndState(Creating, false, confirmed));
                     w == PutSession(old(w), x, ReleasedIf(ended, confirmed))
    {
      var r := w.sessions[x];
      ok := StepRow(x, CompleteCreation(if confirmed then SessionState.Failed else SessionState.Lost, r.generation));
      if ok && confirmed {
        ok := StepRow(x, ConfirmCleanup);
      }
    }
  
    /** One command of a live session: active ones are lost, queued ones rejected. */
    method SettleCommand(x: SessionId, c: CommandId, confirmed: bool) returns (ok: bool)
      requires Reachable(w) && x in w.sessions && c in w.commands && w.commands[c].session == x
      requires SessionEdge(w.sessions[x].state, SessionState.Lost) || w.sessions[x].state.Lost?
      requires confirmed ==> w.sessions[x].gone
      modifies this
      ensures Reachable(w)
      ensures ok ==>
        w == PutCommand(PutSession(old(w), x, LostIf(old(w).sessions[x], CommandActive(old(w).commands[c].state))),
                        c, CommandAfter(old(w).commands[c], true, confirmed))
    {
      ReachableInv(w);
      var r := w.commands[c];
      ok := true;
      assert w.sessions == w.sessions[x := w.sessions[x]] && w.commands == w.commands[c := w.commands[c]];
      if CommandActive(r.state) {
        ok := Step(CompleteCommand(c, CommandState.Lost, SessionState.Lost, confirmed));
      } else if r.state.Queued? {
        ok := Step(OnCommand(c, Move(Rejected)));
      }
    }

    /** The command loop of reconcileLiveSession. */
    method SettleCommands(x: SessionId, ids: seq<CommandId>, confirmed: bool) returns (ok: bool, lost: bool)
      requires Reachable(w) && x in w.sessions && SessionEdge(w.sessions[x].state, SessionState.Lost)
      requires confirmed ==> w.sessions[x].gone
      requires Lists(w, x, ids)
      modifies this
      ensures Reachable(w)
      ensures ok ==> lost == HasActive(old(w), x) && LiveTurn(old(w), w, x, ids, lost, confirmed)
    {
      lost, ok := false, true;
      var i := 0;
      while i < |ids|
        invariant 0 <= i <= |ids| && Reachable(w) && ok
        invariant lost <==> exists k :: 0 <= k < i && CommandActive(old(w).commands[ids[k]].state)
        invariant LiveTurn(old(w), w, x, ids[..i], lost, confirmed)
      {
        ghost var before := w;
        var c := ids[i];
        NextListed(old(w), x, ids, i);
        var active := CommandActive(w.commands[c].state);
        ok := SettleCommand(x, c, confirmed);
        if !ok {
          return;
        }
        LiveTurnNext(old(w), before, w, x, ids, i, lost, active, confirmed);
        lost := lost || active;
        i := i + 1;
      }
      assert ids[..i] == ids;
      ActiveIsListed(old(w), x, ids);
    }

    method ListCommands(x: SessionId) returns (ids: seq<CommandId>)
      ensures Lists(w, x, ids)
    {
      var rows := w.commands;
      ids := Sequence(set c | c in rows && rows[c].session == x);
    }

    /** The end of reconcileLiveSession: the session's state, then its reservation if cleanup is confirmed. */
    method FinishLive(x: SessionId, confirmed: bool) returns (ok: bool)
      requires Reachable(w) && x in w.sessions && !w.sessions[x].state.Creating?
      requires SessionEdge(w.sessions[x].state, SessionState.Lost) || w.sessions[x].state.Lost?
      requires confirmed ==> w.sessions[x].gone
      modifies this
      ensures Reachable(w)
      ensures ok ==> w == PutSession(old(w), x, ReleasedIf(
                old(w).sessions[x].(state := EndState(old(w).sessions[x].state, false, confirmed)), confirmed))
    {
      PastCreation(w, x);
      var state := w.sessions[x].state;
      ok := true;
      assert w.sessions == w.sessions[x := w.sessions[x]];
      if !SessionTerminal(state) {
        ok := StepRow(x, Transition(if state.Closing? && confirmed then Closed else SessionState.Lost));
      }
      if ok && confirmed {
        ok := StepRow(x, ConfirmCleanup);
      }
    }

    /** reconcileLiveSession: its commands first. */
    method ReconcileLive(x: SessionId, confirmed: bool) returns (ok: bool)
      requires Reachable(w) && x in w.sessions && SessionEdge(w.sessions[x].state, SessionState.Lost)
      requires !w.sessions[x].state.Creating? && (confirmed ==> w.sessions[x].gone)
      modifies this
      ensures Reachable(w)
      ensures ok ==> LiveDone(old(w), w, x, confirmed)
    {
      var ids := ListCommands(x);
      var lost;
      ok, lost := SettleCommands(x, ids, confirmed);
      if ok {
        ghost var v := w;
        ok := FinishLive(x, confirmed);
        if ok {
          LiveIsDone(old(w), v, w, x, ids, lost, confirmed);
        }
      }
    }

    /** An old failed session: its cleanup is proved again before anything is released. */
    method SweepFailed(x: SessionId, confirmed: bool) returns (ok: bool)
      requires Reachable(w) && x in w.sessions && !CreationInFlight(w, x)
      modifies this
      ensures Reachable(w)
      ensures ok ==> w == PutSession(old(w), x, ReleasedIf(ProvedIf(old(w).sessions[x], confirmed), confirmed))
    {
      Reconcile(x, confirmed);
      ok := true;
      if confirmed {
        ok := StepRow(x, ConfirmCleanup);
      }
    }

    method SweepCreating(x: SessionId, confirmed: bool) returns (ok: bool)
      requires Reachable(w) && InState(w, x, Creating) && !CreationInFlight(w, x)
      modifies this
      ensures Reachable(w)
      ensures ok ==> w == PutSession(old(w), x, ReleasedIf(ProvedIf(old(w).sessions[x], confirmed)
                                                           .(state := EndState(Creating, false, confirmed)), confirmed))
    {
      Reconcile(x, confirmed);
      ok := ReconcileCreating(x, confirmed);
    }

    method SweepLive(x: SessionId, preserved: Option<SessionId>, confirmed: bool) returns (ok: bool)
      requires Reachable(w) && x in w.sessions && Swept(w.sessions[x], preserved == Some(x))
      requires !w.sessions[x].state.Creating?
      modifies this
      ensures Reachable(w)
      ensures ok ==> OneSwept(old(w), w, x, preserved, confirmed)
    {
      PastCreation(w, x);
      Reconcile(x, confirmed);
      ghost var v := w;
      ok := ReconcileLive(x, confirmed);
      if ok {
        LiveIsSwept(old(w), v, w, x, preserved, confirmed);
      }
    }

    /** The sweep of one session. */
    method SweepSession(x: SessionId, preserved: Option<SessionId>, confirmed: bool) returns (ok: bool)
      requires Reachable(w) && x in w.sessions && !CreationInFlight(w, x)
      modifies this
      ensures Reachable(w)
      ensures ok ==> OneSwept(old(w), w, x, preserved, confirmed)
    {
      var r := w.sessions[x];
      ok := true;
      if Unreleased(r) {
        ok := SweepFailed(x, confirmed);
      } else if !Swept(r, preserved == Some(x)) {
        assert w.sessions == w.sessions[x := w.sessions[x]];
      } else if r.state.Creating? {
        CreatingHasNoCommands(w, x);
        ok := SweepCreating(x, confirmed);
      } else {
        ok := SweepLive(x, preserved, confirmed);
      }
    }

    /** reconcileStartupLocked with no call in flight: on success exactly the sweep of every session. */
    method ReconcileStartup(preserved: Option<SessionId>, answers: set<SessionId>) returns (ok: bool)
      requires Reachable(w) && forall x | x in w.sessions :: !CreationInFlight(w, x)
      modifies this
      ensures Reachable(w)
      ensures ok ==> FullSweep(old(w), w, preserved, answers)
    {
      var ids := Sequence(w.sessions.Keys);
      var i := 0;
      ok := true;
      NothingSwept(w, preserved, answers);
      while i < |ids|
        invariant 0 <= i <= |ids| && Reachable(w) && ok
        invariant SweepOf(old(w), w, Taken(ids, i), preserved, answers)
      {
        var x := ids[i];
        assert x in ids;
        SweepLeaves(old(w), w, Taken(ids, i), preserved, answers, x);
        ghost var before := w;
        ok := SweepSession(x, preserved, x in answers);
        if !ok {
          return;
        }
        SweepNext(old(w), before, w, Taken(ids, i), preserved, answers, x);
        assert Taken(ids, i + 1) == Taken(ids, i) + {x};
        i := i + 1;
      }
      assert Taken(ids, |ids|) == old(w).sessions.Keys;
    }

    /** ReconcileStartupWithControlledRestartPlan: without a plan the ordinary sweep; with a plan for an
        untouched ready one-off whose shell was rebuilt, the sweep of everything else. */
    method ReconcileWithPlan(plan: Option<Plan>, rebuilt: bool, answers: set<SessionId>) returns (ok: bool)
      requires Reachable(w) && forall x | x in w.sessions :: !CreationInFlight(w, x)
      modifies this
      ensures Reachable(w)
      ensures ok && plan.None? ==> FullSweep(old(w), w, None, answers)
      ensures ok && plan.Some? ==>
                && FullSweep(old(w), w, Some(plan.value.session), answers) && Untouched(old(w), plan.value)
                      && Untouched(w, plan.value)
                && w.sessions[plan.value.session] == old(w).sessions[plan.value.session]
      ensures plan.Some? && !(rebuilt && Untouched(old(w), plan.value)) ==> !ok && w == old(w)
    {
      if plan.None? {
        ok := ReconcileStartup(None, answers);
        return;
      }
      if !Untouched(w, plan.value) || !rebuilt {
        return false;
      }
      ok := ReconcileStartup(Some(plan.value.session), answers);
      if ok {
        PreservedIsUntouched(old(w), w, plan.value, answers);
      }
    }
  }

  /** The commands of a session, each once. */
  ghost predicate Lists(w: World, x: SessionId, ids: seq<CommandId>) {
    && (forall c :: c in ids <==> c in w.commands && w.commands[c].session == x)
    && (forall i, j | 0 <= i < j < |ids| :: ids[i] != ids[j])
  }

  function LostIf(r: SessionRow, lost: bool): SessionRow {
    if lost then r.(state := SessionState.Lost) else r
  }

  /** The commands in `done` are settled, nothing else but the session's own state moved. */
  ghost predicate LiveTurn(u: World, w: World, x: SessionId, done: seq<CommandId>, lost: bool, confirmed: bool) {
    && x in u.sessions && SameFrame(u, w)
    && w.sessions == u.sessions[x := LostIf(u.sessions[x], lost)]
    && (forall c | c in u.commands ::
          w.commands[c] == if c in done then CommandAfter(u.commands[c], true, confirmed) else u.commands[c])
  }

  lemma NextListed(w: World, x: SessionId, ids: seq<CommandId>, i: nat)
    requires Lists(w, x, ids) && i < |ids|
    ensures ids[i] in w.commands && w.commands[ids[i]].session == x && ids[i] !in ids[..i]
  {
    assert ids[i] in ids;
  }

  lemma ActiveIsListed(w: World, x: SessionId, ids: seq<CommandId>)
    requires Lists(w, x, ids)
    ensures HasActive(w, x) <==> exists k :: 0 <= k < |ids| && CommandActive(w.commands[ids[k]].state)
  {
    if HasActive(w, x) {
      var c :| c in w.commands && w.commands[c].session == x && CommandActive(w.commands[c].state);
      assert c in ids;
    }
    if k :| 0 <= k < |ids| && CommandActive(w.commands[ids[k]].state) {
      assert ids[k] in ids;
    }
  }

  lemma LiveTurnNext(u: World, v: World, w: World, x: SessionId, ids: seq<CommandId>, i: nat, lost: bool, active: bool,
                     confirmed: bool)
    requires i < |ids| && ids[i] in v.commands && ids[i] !in ids[..i]
    requires LiveTurn(u, v, x, ids[..i], lost, confirmed) && active == CommandActive(v.commands[ids[i]].state)
    requires w == PutCommand(PutSession(v, x, LostIf(v.sessions[x], active)), ids[i],
             CommandAfter(v.commands[ids[i]], true, confirmed))
    ensures LiveTurn(u, w, x, ids[..i + 1], lost || active, confirmed)
  {
    assert ids[..i + 1] == ids[..i] + [ids[i]];
  }

  /** One live session after its sweep. */
  ghost predicate LiveDone(u: World, w: World, x: SessionId, confirmed: bool) {
    && x in u.sessions && SameFrame(u, w)
    && w.sessions == u.sessions[x := ReleasedIf(
         u.sessions[x].(state := EndState(u.sessions[x].state, HasActive(u, x), confirmed)), confirmed)]
    && (forall c | c in u.commands ::
          w.commands[c] == if u.commands[c].session == x then CommandAfter(u.commands[c], true, confirmed)
              else u.commands[c])
  }

  lemma LiveIsDone(u: World, v: World, w: World, x: SessionId, ids: seq<CommandId>, lost: bool, confirmed: bool)
    requires LiveTurn(u, v, x, ids, lost, confirmed) && lost == HasActive(u, x)
    requires Lists(u, x, ids)
    requires w == v.(sessions := u.sessions[x := ReleasedIf(
               u.sessions[x].(state := EndState(u.sessions[x].state, lost, confirmed)), confirmed)])
    ensures LiveDone(u, w, x, confirmed)
  {
  }

  ghost predicate OneSwept(u: World, w: World, x: SessionId, preserved: Option<SessionId>, confirmed: bool) {
    && x in u.sessions && SameFrame(u, w)
    && w.sessions == u.sessions[x := SessionAfter(u.sessions[x], HasActive(u, x), preserved == Some(x), confirmed)]
    && (forall c | c in u.commands ::
          w.commands[c] == if u.commands[c].session == x
                           then CommandAfter(u.commands[c], Swept(u.sessions[x], preserved == Some(x)), confirmed)
                           else u.commands[c])
  }

  lemma LiveIsSwept(u: World, v: World, w: World, x: SessionId, preserved: Option<SessionId>, confirmed: bool)
    requires x in u.sessions && v == PutSession(u, x, ProvedIf(u.sessions[x], confirmed))
             && LiveDone(v, w, x, confirmed)
    requires Swept(u.sessions[x], preserved == Some(x))
    ensures OneSwept(u, w, x, preserved, confirmed)
  {
    assert HasActive(v, x) == HasActive(u, x);
  }

  function Taken(ids: seq<SessionId>, i: nat): set<SessionId>
    requires i <= |ids|
  {
    set k | 0 <= k < i :: ids[k]
  }

  lemma PastCreation(w: World, x: SessionId)
    requires Reachable(w) && x in w.sessions && !w.sessions[x].state.Creating?
    ensures !CreationInFlight(w, x) && !w.sessions[x].state.Requested?
  {
    ReachableInv(w);
  }

  lemma CreatingHasNoCommands(w: World, x: SessionId)
    requires Reachable(w) && InState(w, x, Creating)
    ensures forall c | c in w.commands :: w.commands[c].session != x
  {
    ReachableInv(w);
  }

  lemma NothingSwept(w: World, preserved: Option<SessionId>, answers: set<SessionId>)
    ensures SweepOf(w, w, {}, preserved, answers)
  {
  }

  /** A session not yet taken is as it was, so its creating call is still not in flight. */
  lemma SweepLeaves(u: World, w: World, done: set<SessionId>, preserved: Option<SessionId>, answers: set<SessionId>,
                    x: SessionId)
    requires SweepOf(u, w, done, preserved, answers) && x in u.sessions && x !in done
    ensures x in w.sessions && w.sessions[x] == u.sessions[x] && w.epoch == u.epoch
  {
  }

  lemma ActiveKept(u: World, v: World, done: set<SessionId>, preserved: Option<SessionId>, answers: set<SessionId>,
                   x: SessionId)
    requires SweepOf(u, v, done, preserved, answers) && x !in done
    ensures HasActive(v, x) == HasActive(u, x)
    ensures forall c | c in u.commands :: v.commands[c].session == u.commands[c].session
    ensures forall c | c in u.commands && u.commands[c].session == x :: v.commands[c] == u.commands[c]
  {
    forall c | c in u.commands ensures v.commands[c].session == u.commands[c].session {
      assert v.commands[c] == CommandGoal(u, c, done, preserved, answers);
    }
  }

  lemma SweepNext(u: World, v: World, w: World, done: set<SessionId>, preserved: Option<SessionId>,
                  answers: set<SessionId>, x: SessionId)
    requires SweepOf(u, v, done, preserved, answers) && x in u.sessions && x !in done
    requires OneSwept(v, w, x, preserved, x in answers)
    ensures SweepOf(u, w, done + {x}, preserved, answers)
  {
    ActiveKept(u, v, done, preserved, answers, x);
    SweepLeaves(u, v, done, preserved, answers, x);
    forall c | c in u.commands ensures w.commands[c] == CommandGoal(u, c, done + {x}, preserved, answers) {
      assert v.commands[c] == CommandGoal(u, c, done, preserved, answers);
    }
  }

  /** A durable plan to keep one queued one-off across a restart. */
  datatype Plan = Plan(job: JobId, session: SessionId, command: CommandId)

  /** validateControlledRestartQueuedOneOff: a ready session, its awaiting job, and exactly one command,
      still queued. */
  predicate Untouched(w: World, p: Plan) {
    && InState(w, p.session, Ready) && w.sessions[p.session].generation
    && p.job in w.jobs && w.jobs[p.job] == Job(p.session, p.command, AwaitingCommand)
    && p.command in w.commands && w.commands[p.command].session == p.session && w.commands[p.command].state.Queued?
    && (forall c | c in w.commands && w.commands[c].session == p.session :: c == p.command)
  }

  /** The sweep leaves the planned session, its command and its job exactly as they were. */
  lemma PreservedIsUntouched(u: World, w: World, p: Plan, answers: set<SessionId>)
    requires FullSweep(u, w, Some(p.session), answers) && Untouched(u, p)
    ensures Untouched(w, p) && w.sessions[p.session] == u.sessions[p.session]
            && w.commands[p.command] == u.commands[p.command]
  {
    SweepKeepsOwners(u, w, Some(p.session), answers);
    assert w.commands[p.command] == CommandGoal(u, p.command, u.sessions.Keys, Some(p.session), answers);
  }

  lemma SweepKeepsOwners(u: World, w: World, preserved: Option<SessionId>, answers: set<SessionId>)
    requires FullSweep(u, w, preserved, answers)
    ensures w.commands.Keys == u.commands.Keys
    ensures forall c | c in u.commands :: w.commands[c].session == u.commands[c].session
  {
    forall c | c in u.commands ensures w.commands[c].session == u.commands[c].session {
      assert w.commands[c] == CommandGoal(u, c, u.sessions.Keys, preserved, answers);
    }
  }
}
