/** What one caller of the service may rely on while other callers, the runtime included, take
    licensed steps between its own. */
module Interference {
  import opened Common
  import opened Lifecycle
  import opened Authority
  import opened Runs

  ghost predicate LicensedStepAt(ws: seq<World>, i: nat)
    requires i + 1 < |ws|
  {
    exists a :: Licensed(ws[i], a) && Apply(ws[i], a) == Some(ws[i + 1])
  }

  ghost predicate History(ws: seq<World>) {
    && |ws| > 0 && ws[0] == Start(ws[0].limit)
    && forall i: nat | i + 1 < |ws| :: LicensedStepAt(ws, i)
  }

  /** Some disciplined run of the authority ends in this world. */
  ghost predicate Reachable(w: World) {
    exists ws :: History(ws) && ws[|ws| - 1] == w
  }

  /** Steps that only the call holding a creating token or a claim may take. */
  predicate UsesCreation(a: Action, x: SessionId) {
    a.OnSession? && a.session == x && (a.sop.Spawn? || a.sop.NeverStarted? || a.sop.EndCreation?)
  }

  predicate UsesClaim(a: Action, c: CommandId) {
    a.OnCommand? && a.command == c && (a.cop.Send? || a.cop.DropClaim?)
  }

  /** The tokens one call holds: a creation in flight, a claim not yet used. */
  datatype Tokens = Tokens(creating: Option<SessionId>, claim: Option<CommandId>)

  predicate Spares(a: Action, t: Tokens) {
    && !a.Crash?
    && (t.creating.Some? ==> !UsesCreation(a, t.creating.value))
    && (t.claim.Some? ==> !UsesClaim(a, t.claim.value))
  }

  /** One licensed step of somebody who does not hold t. */
  ghost predicate OtherStep(u: World, v: World, t: Tokens) {
    exists a :: Licensed(u, a) && Spares(a, t) && Apply(u, a) == Some(v)
  }

  ghost predicate OtherStepAt(ws: seq<World>, i: nat, t: Tokens)
    requires i + 1 < |ws|
  {
    OtherStep(ws[i], ws[i + 1], t)
  }

  ghost predicate Path(ws: seq<World>, t: Tokens) {
    |ws| > 0 && forall i: nat | i + 1 < |ws| :: OtherStepAt(ws, i, t)
  }

  /** From u the others may have reached v without a crash and without using the tokens t. */
  ghost predicate Rely(u: World, v: World, t: Tokens) {
    exists ws :: Path(ws, t) && ws[0] == u && ws[|ws| - 1] == v
  }

  predicate Holds(w: World, t: Tokens) {
    && (t.creating.Some? ==> CreationInFlight(w, t.creating.value))
    && (t.claim.Some? ==> Claimed(w, t.claim.value))
  }

  // ---- composing paths ----

  lemma RelyRefl(u: World, t: Tokens)
    ensures Rely(u, u, t)
  {
    assert Path([u], t);
  }

  lemma RelyTransitive(u: World, v: World, w: World, t: Tokens)
    requires Rely(u, v, t) && Rely(v, w, t)
    ensures Rely(u, w, t)
  {
    var p :| Path(p, t) && p[0] == u && p[|p| - 1] == v;
    var q :| Path(q, t) && q[0] == v && q[|q| - 1] == w;
    var r := p + q[1..];
    forall i: nat | i + 1 < |r| ensures OtherStepAt(r, i, t) {
      if i + 1 < |p| {
        assert OtherStepAt(p, i, t);
      } else {
        assert OtherStepAt(q, i + 1 - |p|, t);
      }
    }
    assert Path(r, t);
  }

  /** One licensed step of one's own, seen by someone holding t. */
  lemma StepRely(u: World, a: Action, v: World, t: Tokens)
    requires Licensed(u, a) && Apply(u, a) == Some(v) && Spares(a, t)
    ensures Rely(u, v, t)
  {
    assert OtherStep(u, v, t);
    var ws := [u, v];
    assert OtherStepAt(ws, 0, t);
    assert Path(ws, t);
  }

  /** Tokens that a call does not hold need no protection. */
  lemma RelyFewer(u: World, v: World, t: Tokens, s: Tokens)
    requires Rely(u, v, t)
    requires (s.creating.None? || s.creating == t.creating) && (s.claim.None? || s.claim == t.claim)
    ensures Rely(u, v, s)
  {
    var ws :| Path(ws, t) && ws[0] == u && ws[|ws| - 1] == v;
    forall i: nat | i + 1 < |ws| ensures OtherStepAt(ws, i, s) {
      assert OtherStepAt(ws, i, t);
      var a :| Licensed(ws[i], a) && Spares(a, t) && Apply(ws[i], a) == Some(ws[i + 1]);
      assert Spares(a, s);
    }
    assert Path(ws, s);
  }

  lemma ReachableStep(u: World, a: Action, v: World)
    requires Reachable(u) && Licensed(u, a) && Apply(u, a) == Some(v)
    ensures Reachable(v)
  {
    var p :| History(p) && p[|p| - 1] == u;
    var q := p + [v];
    forall i: nat | i + 1 < |q| ensures LicensedStepAt(q, i) {
      if i + 1 < |p| {
        assert LicensedStepAt(p, i);
        assert q[i] == p[i] && q[i + 1] == p[i + 1];
      } else {
        assert Licensed(q[i], a) && Apply(q[i], a) == Some(q[i + 1]);
      }
    }
    assert History(q);
  }

  lemma StartReachable(limit: nat)
    ensures Reachable(Start(limit))
  {
    assert History([Start(limit)]);
  }

  lemma {:induction false} HistoryRuns(ws: seq<World>) returns (trace: seq<Action>)
    requires History(ws)
    ensures Disciplined(ws[0], trace) && Run(ws[0], trace) == Some(ws[|ws| - 1])
    decreases |ws|
  {
    if |ws| == 1 {
      trace := [];
    } else {
      var n := |ws| - 1;
      forall i: nat | i + 1 < n ensures LicensedStepAt(ws[..n], i) {
        assert LicensedStepAt(ws, i);
      }
      var before := HistoryRuns(ws[..n]);
      assert LicensedStepAt(ws, n - 1);
      var a :| Licensed(ws[n - 1], a) && Apply(ws[n - 1], a) == Some(ws[n]);
      trace := before + [a];
      assert trace[..|trace| - 1] == before;
      forall i | 0 <= i < |trace|
        ensures Run(ws[0], trace[..i]).Some? && Licensed(Run(ws[0], trace[..i]).value, trace[i])
      {
        assert i < |before| ==> trace[..i] == before[..i];
      }
    }
  }

  /** A reachable world is the end of a disciplined run, so everything proved of all runs holds of it. */
  lemma ReachableRun(w: World) returns (limit: nat, trace: seq<Action>)
    requires Reachable(w)
    ensures Disciplined(Start(limit), trace) && Run(Start(limit), trace) == Some(w)
  {
    var ws: seq<World> :| History(ws) && ws[|ws| - 1] == w;
    limit := ws[0].limit;
    trace := HistoryRuns(ws);
  }

  /** Whatever a service call leaves behind, at any of its steps, is within capacity and settled once. */
  lemma ReachableIsSafe(w: World)
    requires Reachable(w)
    ensures AliveSessions(w) <= LiveReservations(w) && |AliveSessions(w)| <= |LiveReservations(w)| <= w.limit
    ensures RunningScripts(w) <= LiveSlots(w) && |LiveSlots(w)| <= RUNNING_COMMAND_LIMIT
    ensures forall c | c in w.commands ::
              w.commands[c].sent <= 1 && w.commands[c].terminalWrites <= 1 && w.commands[c].slotReleases <= 1
    ensures forall x | x in w.sessions ::
              w.sessions[x].releases <= 1 && (w.sessions[x].reservation.Released? ==> w.sessions[x].gone)
  {
    ReachableInv(w);
    AliveIsHeld(w);
    RunningIsHeld(w);
    SubsetSize(AliveSessions(w), LiveReservations(w));
  }

  lemma ReachableInv(w: World)
    requires Reachable(w)
    ensures Inv(w)
  {
    var limit, trace := ReachableRun(w);
    StartInv(limit);
    RunInv(Start(limit), trace);
  }

  // ---- what survives the others ----

  /** A session whose creating call is in flight is touched by nobody else. */
  lemma CreationIsPrivate(w: World, a: Action, x: SessionId)
    requires Rows(w) && Licensed(w, a) && Apply(w, a).Some? && !a.Crash?
    requires CreationInFlight(w, x) && !UsesCreation(a, x)
    ensures x in Apply(w, a).value.sessions && Apply(w, a).value.sessions[x] == w.sessions[x]
  {
    assert SessionOk(w.epoch, w.sessions[x]);
    match a
    case StartCommand(c) => assert CommandOk(w.epoch, w.sessions[w.commands[c].session], w.commands[c]);
    case CompleteCommand(c, _, _, _) => assert CommandOk(w.epoch, w.sessions[w.commands[c].session], w.commands[c]);
    case ReleaseLost(pairs, bare) => assert x !in bare + PairSessions(w, pairs);
    case _ =>
  }

  lemma ClaimIsPrivate(w: World, a: Action, c: CommandId)
    requires Apply(w, a).Some? && !a.Crash? && Claimed(w, c) && !UsesClaim(a, c)
    ensures Claimed(Apply(w, a).value, c)
  {
  }

  /** What one step of the others keeps for a call that holds t. */
  ghost predicate Keeps(u: World, v: World, t: Tokens) {
    && Reachable(v) && Grows(u, v) && v.epoch == u.epoch
    && (Holds(u, t) ==> Holds(v, t))
    && (t.creating.Some? && CreationInFlight(u, t.creating.value) ==>
          t.creating.value in v.sessions && v.sessions[t.creating.value] == u.sessions[t.creating.value])
  }

  lemma OtherStepKeeps(u: World, v: World, t: Tokens)
    requires Reachable(u) && OtherStep(u, v, t)
    ensures Keeps(u, v, t)
  {
    var a :| Licensed(u, a) && Spares(a, t) && Apply(u, a) == Some(v);
    ReachableInv(u);
    ReachableStep(u, a, v);
    StepSound(u, a);
    EpochKept(u, a);
    if t.creating.Some? && CreationInFlight(u, t.creating.value) {
      CreationIsPrivate(u, a, t.creating.value);
    }
    if t.claim.Some? && Claimed(u, t.claim.value) {
      ClaimIsPrivate(u, a, t.claim.value);
    }
  }

  lemma EpochKept(w: World, a: Action)
    requires Apply(w, a).Some? && !a.Crash?
    ensures Apply(w, a).value.epoch == w.epoch
  {
  }

  lemma KeepsTransitive(u: World, v: World, w: World, t: Tokens)
    requires Keeps(u, v, t) && Keeps(v, w, t)
    ensures Keeps(u, w, t)
  {
    GrowsTransitive(u, v, w);
  }

  lemma {:induction false} PathKeeps(ws: seq<World>, t: Tokens)
    requires Path(ws, t) && Reachable(ws[0])
    ensures Keeps(ws[0], ws[|ws| - 1], t)
    decreases |ws|
  {
    if |ws| == 1 {
      GrowsRefl(ws[0]);
    } else {
      var n := |ws| - 1;
      forall i: nat | i + 1 < n ensures OtherStepAt(ws[..n], i, t) {
        assert OtherStepAt(ws, i, t);
      }
      PathKeeps(ws[..n], t);
      assert OtherStepAt(ws, n - 1, t);
      OtherStepKeeps(ws[n - 1], ws[n], t);
      KeepsTransitive(ws[0], ws[n - 1], ws[n], t);
    }
  }

  lemma RelyKeeps(u: World, v: World, t: Tokens)
    requires Reachable(u) && Rely(u, v, t)
    ensures Keeps(u, v, t)
  {
    var ws :| Path(ws, t) && ws[0] == u && ws[|ws| - 1] == v;
    PathKeeps(ws, t);
  }

  lemma RelyKeepsTokens(u: World, v: World, t: Tokens)
    requires Reachable(u) && Rely(u, v, t) && Holds(u, t)
    ensures Reachable(v) && Holds(v, t) && v.epoch == u.epoch
    ensures t.creating.Some? ==> v.sessions[t.creating.value] == u.sessions[t.creating.value]
  {
    RelyKeeps(u, v, t);
  }

  lemma RelyKeepsSession(u: World, v: World, t: Tokens, x: SessionId)
    requires Reachable(u) && Rely(u, v, t) && x in u.sessions
    ensures x in v.sessions && SessionLater(u.sessions[x], v.sessions[x]) && SessionOk(v.epoch, v.sessions[x])
  {
    RelyKeeps(u, v, t);
    ReachableInv(v);
  }

  lemma RelyKeepsCommand(u: World, v: World, t: Tokens, c: CommandId)
    requires Reachable(u) && Rely(u, v, t) && c in u.commands
    ensures c in v.commands && CommandLater(u.commands[c], v.commands[c]) && v.commands[c].session in v.sessions
    ensures CommandOk(v.epoch, v.sessions[v.commands[c].session], v.commands[c])
    ensures SessionOk(v.epoch, v.sessions[v.commands[c].session])
  {
    RelyKeeps(u, v, t);
    ReachableInv(v);
  }

  lemma SessionLicenceStable(epoch: nat, r: SessionRow, s: SessionRow, op: SessionOp)
    requires SessionLater(r, s) && SessionLicence(epoch, r, op)
    ensures SessionLicence(epoch, s, op)
  {
  }

  /** A licence, once earned, is not lost to other callers. */
  lemma LicenceStable(w: World, v: World, a: Action)
    requires Grows(w, v) && v.epoch == w.epoch && Licensed(w, a)
    ensures Licensed(v, a)
  {
    match a
    case OnSession(x, op) => SessionLicenceStable(w.epoch, w.sessions[x], v.sessions[x], op);
    case Checkpoint(j, _, phase) =>
      assert JobLater(w.jobs[j], v.jobs[j]);
      JobSurvives(w, v, w.jobs[j].(phase := phase));
    case _ =>
  }

  lemma RelyKeepsLicence(u: World, v: World, t: Tokens, a: Action)
    requires Reachable(u) && Rely(u, v, t) && Licensed(u, a)
    ensures Licensed(v, a)
  {
    RelyKeeps(u, v, t);
    LicenceStable(u, v, a);
  }
}
