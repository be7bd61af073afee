/** The one-off job coordinator: create a session, run one command in it, close it. */
module Coordinator {
  import opened Common
  import opened Lifecycle
  import opened Authority
  import opened Runs
  import opened Interference
  import opened ExecutionService
  import opened Commands
  import opened Closing

  /** Where one pass left the job, and whether the pass goes on. */
  datatype Pass = Pass(phase: JobPhase, more: bool, ok: bool)

  /** The stored job is at this phase or further, and what the phase promises holds. */
  predicate AtLeast(w: World, j: JobId, phase: JobPhase) {
    j in w.jobs && Advances(phase, w.jobs[j].phase) && JobOk(w, w.jobs[j].(phase := phase))
  }

  lemma AtLeastLater(u: World, v: World, t: Tokens, j: JobId, phase: JobPhase)
    requires Reachable(u) && Rely(u, v, t) && AtLeast(u, j, phase)
    ensures AtLeast(v, j, phase) && v.jobs[j].session == u.jobs[j].session && v.jobs[j].command == u.jobs[j].command
  {
    RelyKeeps(u, v, t);
    assert JobLater(u.jobs[j], v.jobs[j]);
    JobSurvives(u, v, u.jobs[j].(phase := phase));
  }

  /** CheckpointJob: compare-and-set on the expected phase. */
  method CheckpointJob(s: Service, j: JobId, expected: JobPhase, next: JobPhase) returns (done: bool)
    requires s.Valid() && AtLeast(s.w, j, expected)
    requires Advances(expected, next) && JobOk(s.w, s.w.jobs[j].(phase := next))
    modifies s`w, s`faults
    ensures s.Valid() && Rely(old(s.w), s.w, s.tokens)
    ensures AtLeast(s.w, j, if done then next else expected) && s.faults == old(s.faults) + (if done then 0 else 1)
    ensures s.w.jobs[j].session == old(s.w).jobs[j].session && s.w.jobs[j].command == old(s.w).jobs[j].command
  {
    var o, at := s.Commit(Checkpoint(j, expected, next));
    AtLeastLater(old(s.w), s.w, s.tokens, j, expected);
    RelyKeeps(old(s.w), s.w, s.tokens);
    JobSurvives(old(s.w), s.w, old(s.w).jobs[j].(phase := next));
    done := o.Done?;
  }

  /** Records a failed or lost outcome and stops the pass. */
  method Stop(s: Service, j: JobId, expected: JobPhase, next: JobPhase) returns (p: Pass)
    requires s.Valid() && AtLeast(s.w, j, expected) && PhaseRank(expected) < 4 && (next.Failed? || next.Lost?)
    modifies s`w, s`faults
    ensures s.Valid() && Rely(old(s.w), s.w, s.tokens)
    ensures AtLeast(s.w, j, p.phase) && Advances(expected, p.phase) && !p.more
            && p.phase == (if p.ok then next else expected)
    ensures s.faults == old(s.faults) + (if p.ok then 0 else 1)
  {
    var done := CheckpointJob(s, j, expected, next);
    p := Pass(if done then next else expected, false, done);
  }

  /** checkpointPreSessionFailure: only a job without a session row may fail before creation. */
  method StopBeforeSession(s: Service, j: JobId, x: SessionId, permanent: bool) returns (p: Pass)
    requires s.Valid() && AtLeast(s.w, j, CreatingSession)
    modifies s`w, s`faults
    ensures s.Valid() && Rely(old(s.w), s.w, s.tokens)
    ensures AtLeast(s.w, j, p.phase) && Advances(CreatingSession, p.phase) && !p.more && (p.ok ==> p.phase.Failed?)
  {
    if permanent && x !in s.w.sessions {
      p := Stop(s, j, CreatingSession, JobPhase.Failed);
    } else {
      RelyRefl(s.w, s.tokens);
      p := Pass(CreatingSession, false, false);
    }
  }

  method CreatePass(s: Service, j: JobId, x: SessionId) returns (p: Pass)
    requires s.Valid() && s.tokens == Tokens(None, None) && AtLeast(s.w, j, CreatingSession)
    modifies s
    ensures s.Valid() && s.tokens == old(s.tokens) && Rely(old(s.w), s.w, s.tokens)
    ensures AtLeast(s.w, j, p.phase) && Advances(CreatingSession, p.phase)
    ensures p.more ==> PhaseRank(p.phase) > PhaseRank(CreatingSession)
    ensures p.ok ==> !p.phase.CreatingSession? && (p.phase.AcceptingCommand? ==> p.more)
  {
    var created := s.CreateSession(x);
    AtLeastLater(old(s.w), s.w, s.tokens, j, CreatingSession);
    ghost var mid := s.w;
    if created.Denied? || created.NotAccepted? || created.Unrecorded? {
      var permanent: bool := *;
      p := StopBeforeSession(s, j, x, permanent);
    } else if created.row.state.Lost? || created.row.state.Failed? {
      p := Stop(s, j, CreatingSession, if created.row.state.Lost? then JobPhase.Lost else JobPhase.Failed);
    } else if !created.row.state.Ready? && !created.row.state.Busy? {
      RelyRefl(s.w, s.tokens);
      p := Pass(CreatingSession, false, false);
    } else {
      var done := CheckpointJob(s, j, CreatingSession, AcceptingCommand);
      p := if done then Pass(AcceptingCommand, true, true) else Pass(CreatingSession, false, false);
    }
    RelyTransitive(old(s.w), mid, s.w, s.tokens);
  }

  /** The accepted command's checkpoint: awaiting, or lost when its execution already was. */
  method CheckpointCommand(s: Service, j: JobId, expected: JobPhase, r: CommandResult) returns (p: Pass)
    requires s.Valid() && AtLeast(s.w, j, expected) && (expected.AcceptingCommand? || expected.AwaitingCommand?)
    requires r.row.Some? && Seen(s.w, s.w.jobs[j].command, r.row.value)
    modifies s`w, s`faults
    ensures s.Valid() && Rely(old(s.w), s.w, s.tokens)
    ensures AtLeast(s.w, j, p.phase) && Advances(expected, p.phase)
    ensures p.more ==> p.phase.AwaitingCommand? || p.phase.Lost?
    ensures s.w.jobs[j].session == old(s.w).jobs[j].session && s.w.jobs[j].command == old(s.w).jobs[j].command
  {
    if r.row.value.session != s.w.jobs[j].session {
      RelyRefl(s.w, s.tokens);
      return Pass(expected, false, false);
    }
    var next := if r.row.value.state.Lost? then JobPhase.Lost else AwaitingCommand;
    var done := CheckpointJob(s, j, expected, next);
    p := if done then Pass(next, true, true) else Pass(expected, false, false);
  }

  method AcceptPass(s: Service, j: JobId, job: Job, deferred: bool) returns (p: Pass)
    requires s.Valid() && s.tokens == Tokens(None, None) && AtLeast(s.w, j, AcceptingCommand)
    requires s.w.jobs[j].session == job.session && s.w.jobs[j].command == job.command
    modifies s
    ensures s.Valid() && s.tokens == old(s.tokens) && Rely(old(s.w), s.w, s.tokens)
    ensures AtLeast(s.w, j, p.phase) && Advances(AcceptingCommand, p.phase)
    ensures p.more ==> PhaseRank(p.phase) > PhaseRank(AcceptingCommand)
  {
    RelyRefl(s.w, s.tokens);
    if job.session !in s.w.sessions {
      return Pass(AcceptingCommand, false, false);
    }
    var state := s.w.sessions[job.session].state;
    if state.Failed? || state.Lost? {
      p := Stop(s, j, AcceptingCommand, if state.Lost? then JobPhase.Lost else JobPhase.Failed);
      return;
    }
    if !state.Ready? && !state.Busy? {
      return Pass(AcceptingCommand, false, false);
    }
    var accepted;
    if deferred {
      var duplicate;
      accepted, duplicate := Accept(s, job.command, job.session);
    } else {
      accepted := Submit(s, job.command, job.session);
    }
    AtLeastLater(old(s.w), s.w, s.tokens, j, AcceptingCommand);
    if accepted.row.None? {
      return Pass(AcceptingCommand, false, false);
    }
    ghost var w1 := s.w;
    p := CheckpointCommand(s, j, AcceptingCommand, accepted);
    RelyTransitive(old(s.w), w1, s.w, s.tokens);
    if !p.more || !accepted.ok {
      return p.(more := false);
    }
    var final := accepted.row.value.state;
    if final.Queued? && !deferred {
      ghost var w2 := s.w;
      p, final := ResumeHandoff(s, j, job, p.phase);
      RelyTransitive(old(s.w), w2, s.w, s.tokens);
    }
    p := p.(more := p.more && CommandTerminal(final));
  }

  /** The synchronous caller resumes the queued command after its handoff checkpoint. */
  method ResumeHandoff(s: Service, j: JobId, job: Job, phase: JobPhase) returns (p: Pass, final: CommandState)
    requires s.Valid() && s.tokens == Tokens(None, None) && AtLeast(s.w, j, phase)
    requires phase.AwaitingCommand? || phase.Lost?
    requires s.w.jobs[j].session == job.session && s.w.jobs[j].command == job.command
    modifies s
    ensures s.Valid() && s.tokens == old(s.tokens) && Rely(old(s.w), s.w, s.tokens)
    ensures AtLeast(s.w, j, p.phase) && Advances(phase, p.phase)
  {
    final := Queued;
    var resumed, claimed := ResumeCommand(s, job.command);
    AtLeastLater(old(s.w), s.w, s.tokens, j, phase);
    p := Pass(phase, false, false);
    if resumed.row.Some? && phase.AwaitingCommand? {
      final := resumed.row.value.state;
      ghost var w1 := s.w;
      p := CheckpointCommand(s, j, AwaitingCommand, resumed);
      RelyTransitive(old(s.w), w1, s.w, s.tokens);
      p := p.(more := p.more && resumed.ok);
    }
  }

  method AwaitPass(s: Service, j: JobId, job: Job, deferred: bool) returns (p: Pass)
    requires s.Valid() && s.tokens == Tokens(None, None) && AtLeast(s.w, j, AwaitingCommand)
    requires s.w.jobs[j].session == job.session && s.w.jobs[j].command == job.command
    modifies s
    ensures s.Valid() && s.tokens == old(s.tokens) && Rely(old(s.w), s.w, s.tokens)
    ensures AtLeast(s.w, j, p.phase) && Advances(AwaitingCommand, p.phase)
    ensures p.more ==> PhaseRank(p.phase) > PhaseRank(AwaitingCommand)
  {
    RelyRefl(s.w, s.tokens);
    var row := s.w.commands[job.command];
    var failed := false;
    SeenNow(s.w, job.command);
    if !CommandTerminal(row.state) {
      if deferred {
        return Pass(AwaitingCommand, false, true);
      }
      var resumed, claimed := ResumeCommand(s, job.command);
      AtLeastLater(old(s.w), s.w, s.tokens, j, AwaitingCommand);
      SeenLater(old(s.w), s.w, s.tokens, job.command, row);
      failed := !resumed.ok;
      row := if resumed.row.Some? then resumed.row.value else row;
      if failed && !row.state.Lost? {
        return Pass(AwaitingCommand, false, false);
      }
    }
    ghost var w1 := s.w;
    p := SettleAwaited(s, j, job, row, failed);
    RelyTransitive(old(s.w), w1, s.w, s.tokens);
  }

  /** The awaited command's snapshot decides: lost with an error, still open, or on to closing. */
  method SettleAwaited(s: Service, j: JobId, job: Job, row: CommandRow, failed: bool) returns (p: Pass)
    requires s.Valid() && AtLeast(s.w, j, AwaitingCommand) && Seen(s.w, job.command, row)
    requires s.w.jobs[j].session == job.session && s.w.jobs[j].command == job.command
    modifies s`w, s`faults
    ensures s.Valid() && Rely(old(s.w), s.w, s.tokens)
    ensures AtLeast(s.w, j, p.phase) && Advances(AwaitingCommand, p.phase)
    ensures p.more ==> PhaseRank(p.phase) > PhaseRank(AwaitingCommand)
    ensures p.ok ==>
              p.phase == (if failed then JobPhase.Lost else if CommandTerminal(row.state) then ClosingSession
                  else AwaitingCommand)
    ensures p.ok ==> p.more == p.phase.ClosingSession?
  {
    if failed {
      p := Stop(s, j, AwaitingCommand, JobPhase.Lost);
    } else if !CommandTerminal(row.state) {
      var done := CheckpointJob(s, j, AwaitingCommand, AwaitingCommand);
      p := Pass(AwaitingCommand, false, done);
    } else {
      var done := CheckpointJob(s, j, AwaitingCommand, ClosingSession);
      p := if done then Pass(ClosingSession, true, true) else Pass(AwaitingCommand, false, false);
    }
  }

  /** A closing job whose session the policy sweep expired stays where it is, pass after pass; in every other
      case it completes or is lost, unless a store step of this pass did not commit. */
  method ClosePass(s: Service, j: JobId, job: Job) returns (p: Pass)
    requires s.Valid() && s.tokens == Tokens(None, None) && AtLeast(s.w, j, ClosingSession)
    requires s.w.jobs[j].session == job.session && s.w.jobs[j].command == job.command
    modifies s
    ensures s.Valid() && s.tokens == old(s.tokens) && Rely(old(s.w), s.w, s.tokens)
    ensures AtLeast(s.w, j, p.phase) && Advances(ClosingSession, p.phase) && !p.more
    ensures p.ok ==> p.phase.Complete?
    ensures InState(old(s.w), job.session, Expired) ==> p == Pass(ClosingSession, false, false)
    ensures p.phase.ClosingSession? || p.phase.Complete? || p.phase.Lost?
    ensures p.phase.ClosingSession? ==> InState(old(s.w), job.session, Expired) || s.faults > old(s.faults)
  {
    SettledSession(s.w, job.command);
    ReachableInv(s.w);
    var r, already := CloseSession(s, job.session);
    AtLeastLater(old(s.w), s.w, s.tokens, j, ClosingSession);
    RelyKeepsCommand(old(s.w), s.w, s.tokens, job.command);
    RelyKeepsSession(old(s.w), s.w, s.tokens, job.session);
    ghost var mid := s.w;
    if r.CloseOk? && r.row.state.Closed? {
      var done := CheckpointJob(s, j, ClosingSession, Complete);
      p := if done then Pass(Complete, false, true) else Pass(ClosingSession, false, false);
      RelyKeepsSession(mid, s.w, s.tokens, job.session);
    } else if (r.CloseOk? || r.CloseLost?) && r.row.state.Lost? {
      p := Stop(s, j, ClosingSession, JobPhase.Lost);
      p := p.(ok := false);
    } else {
      RelyRefl(s.w, s.tokens);
      p := Pass(ClosingSession, false, false);
    }
    RelyTransitive(old(s.w), mid, s.w, s.tokens);
  }

  /** resumeJob.  Each turn that continues has raised the phase rank, so the loop ends after at most
      four turns; the job never goes back; and a complete job has its own session closed and its own
      command terminal. */
  method ResumeJob(s: Service, j: JobId, deferred: bool) returns (phase: JobPhase, ok: bool)
    requires s.Valid() && s.tokens == Tokens(None, None) && j in s.w.jobs
    modifies s
    ensures s.Valid() && s.tokens == old(s.tokens) && Rely(old(s.w), s.w, s.tokens)
    ensures Advances(old(s.w).jobs[j].phase, phase) && AtLeast(s.w, j, phase)
    ensures phase.Complete? ==>
              && InState(s.w, s.w.jobs[j].session, Closed)
              && Finished(s.w, s.w.jobs[j].command) && s.w.commands[s.w.jobs[j].command].session == s.w.jobs[j].session
    ensures old(s.w).jobs[j].phase.ClosingSession? && InState(old(s.w), old(s.w).jobs[j].session, Expired) ==>
              phase.ClosingSession? && !ok
    ensures old(s.w).jobs[j].phase.ClosingSession? && !InState(old(s.w), old(s.w).jobs[j].session, Expired) ==>
              phase.Complete? || phase.Lost? || s.faults > old(s.faults)
  {
    var job := s.w.jobs[j];
    phase, ok := job.phase, true;
    var more := true;
    RelyRefl(s.w, s.tokens);
    ReachableInv(s.w);
    while more && PhaseRank(phase) < 4
      invariant s.Valid() && s.tokens == Tokens(None, None) && Rely(old(s.w), s.w, s.tokens)
      invariant AtLeast(s.w, j, phase) && Advances(job.phase, phase)
      invariant s.w.jobs[j].session == job.session && s.w.jobs[j].command == job.command
      invariant more && phase == job.phase ==> s.w == old(s.w) && s.faults == old(s.faults)
      invariant job.phase.ClosingSession? && !InState(old(s.w), job.session, Expired) ==>
                  (more && phase == job.phase) || phase.Complete? || phase.Lost? || s.faults > old(s.faults)
      invariant job.phase.ClosingSession? && InState(old(s.w), job.session, Expired) ==>
                  phase.ClosingSession? && (more || !ok)
      decreases 4 - PhaseRank(phase), more
    {
      ghost var before := s.w;
      var p;
      match phase {
        case CreatingSession => p := CreatePass(s, j, job.session);
        case AcceptingCommand => p := AcceptPass(s, j, job, deferred);
        case AwaitingCommand => p := AwaitPass(s, j, job, deferred);
        case ClosingSession => p := ClosePass(s, j, job);
      }
      RelyTransitive(old(s.w), before, s.w, s.tokens);
      AtLeastLater(before, s.w, s.tokens, j, phase);
      phase, more, ok := p.phase, p.more, p.ok;
    }
  }

  // ---- a closing job that never advances ----

  lemma Go(w: World, a: Action) returns (v: World)
    requires Reachable(w) && Licensed(w, a) && Apply(w, a).Some?
    ensures Reachable(v) && Apply(w, a) == Some(v)
  {
    v := Apply(w, a).value;
    ReachableStep(w, a, v);
  }

  /** A job and its ready session. */
  lemma ReadyForJob() returns (w: World)
    ensures Reachable(w) && w.commands == map[] && w.epoch == 0
    ensures 0 in w.jobs && w.jobs[0] == Job(0, 0, CreatingSession) && InState(w, 0, Ready)
            && w.sessions[0].creator.None?
  {
    StartReachable(1);
    assert LiveReservations(Start(1)) == {};
    w := Go(Start(1), AcceptCreate(0));
    w := Go(w, AcceptJob(0, 0, 0));
    w := Go(w, OnSession(0, EndCreation));
    w := Go(w, OnSession(0, CompleteCreation(Ready, true)));
  }

  /** The job's command was accepted and cancelled while it was queued; the job went on to its close. */
  lemma ReadyToClose() returns (w: World)
    ensures Reachable(w) && w.epoch == 0
    ensures 0 in w.jobs && w.jobs[0] == Job(0, 0, ClosingSession) && InState(w, 0, Ready) && w.sessions[0].creator.None?
  {
    w := ReadyForJob();
    w := Go(w, Checkpoint(0, CreatingSession, AcceptingCommand));
    w := Go(w, AcceptCommand(0, 0));
    w := Go(w, Checkpoint(0, AcceptingCommand, AwaitingCommand));
    w := Go(w, OnCommand(0, Move(Cancelled)));
    w := Go(w, Checkpoint(0, AwaitingCommand, ClosingSession));
  }

  /** The sweep expires the session between the checkpoint and the close: a disciplined run reaches a
      closing job whose own session is expired, and there it stays. */
  lemma StuckJobIsReachable() returns (limit: nat, trace: seq<Action>, w: World)
    ensures Disciplined(Start(limit), trace) && Run(Start(limit), trace) == Some(w)
    ensures 0 in w.jobs && w.jobs[0].phase.ClosingSession? && InState(w, w.jobs[0].session, Expired)
  {
    w := ReadyToClose();
    w := Go(w, OnSession(0, Stopped));
    w := Go(w, OnSession(0, Transition(Expired)));
    limit, trace := ReachableRun(w);
  }
}
