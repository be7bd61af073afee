/** The execution authority as a transition system.  A row joins what the store records with what
    is true of the host runtime and of calls in flight.  `Apply` is one store transaction, one
    runtime event or a crash; `Licensed` is the discipline the service keeps. */
module Authority {
  import opened Common
  import opened Lifecycle

  type SessionId = nat
  type CommandId = nat
  type JobId = nat

  /** A capacity row: live until its confirmation and release times are written together. */
  datatype Hold = Held | Released

  datatype SessionRow = SessionRow(
    state: SessionState,
    generation: bool,            // a runtime generation is recorded
    reservation: Hold,
    alive: bool,                 // the host may own resources of this session
    gone: bool,                  // the runtime proved it gone or declared it never started
    creator: Option<nat>,        // epoch of the executor whose CreateSession call is in flight
    releases: nat)               // how often the reservation was released

  datatype CommandRow = CommandRow(
    session: SessionId,
    ordinal: nat,                // its place among the commands of its session
    state: CommandState,
    slot: Option<Hold>,
    claim: Option<nat>,          // epoch of the executor that owns an unused claim
    sent: nat,                   // how often the script was handed to the runtime
    ended: bool,                 // the runtime reported the command's stop or completion boundary
    terminalWrites: nat,
    slotReleases: nat)

  datatype Job = Job(session: SessionId, command: CommandId, phase: JobPhase)

  datatype World = World(
    sessions: map<SessionId, SessionRow>,
    commands: map<CommandId, CommandRow>,
    jobs: map<JobId, Job>,
    limit: nat,                  // active session limit
    epoch: nat)                  // executor generation; a crash starts the next one

  const RUNNING_COMMAND_LIMIT := 4

  function LiveSlots(w: World): set<CommandId> {
    set c | c in w.commands && w.commands[c].slot == Some(Held)
  }

  function LiveReservations(w: World): set<SessionId> {
    set x | x in w.sessions && w.sessions[x].reservation.Held?
  }

  function AliveSessions(w: World): set<SessionId> {
    set x | x in w.sessions && w.sessions[x].alive
  }

  /** The runtime reported the end of this command or of its whole session. */
  predicate Ended(w: World, c: CommandId) {
    c in w.commands && (w.commands[c].ended || Gone(w, w.commands[c].session))
  }

  /** Scripts that may still be running. */
  function RunningScripts(w: World): set<CommandId> {
    set c | c in w.commands && w.commands[c].sent > 0 && !Ended(w, c)
  }

  predicate InState(w: World, x: SessionId, state: SessionState) {
    x in w.sessions && w.sessions[x].state == state
  }

  predicate Finished(w: World, c: CommandId) {
    c in w.commands && CommandTerminal(w.commands[c].state)
  }

  predicate Gone(w: World, x: SessionId) {
    x in w.sessions && w.sessions[x].gone
  }

  predicate CreationInFlight(w: World, x: SessionId) {
    x in w.sessions && w.sessions[x].creator == Some(w.epoch)
  }

  predicate Claimed(w: World, c: CommandId) {
    c in w.commands && w.commands[c].claim == Some(w.epoch)
  }

  /** Steps that write one session row. */
  datatype SessionOp =
    // store transactions
    | FailPreStart
    | CompleteCreation(next: SessionState, generation: bool)
    | CompleteFailedCreation
    | Transition(next: SessionState)
    | ConfirmCleanup
    // the creating call: something may exist; nothing was ever started; no more starts will follow
    | Spawn
    | NeverStarted
    | EndCreation
    // the runtime proved that nothing of the session is left
    | Stopped

  /** Steps that write one command row. */
  datatype CommandOp =
    | Move(to: CommandState)
    | Send
    | Boundary
    | DropClaim

  datatype Action =
    | AcceptCreate(session: SessionId)
    | OnSession(session: SessionId, sop: SessionOp)
    | AcceptCommand(command: CommandId, session: SessionId)
    | OnCommand(command: CommandId, cop: CommandOp)
    | StartCommand(command: CommandId)
    | CompleteCommand(command: CommandId, to: CommandState, sessionNext: SessionState, release: bool)
    | ReleaseLost(pairs: set<CommandId>, bare: set<SessionId>)
    | AcceptJob(job: JobId, session: SessionId, command: CommandId)
    | Checkpoint(job: JobId, expected: JobPhase, phase: JobPhase)
    | Crash

  /** Releasing is conditional on the row being live, so a second release writes nothing. */
  function FreeReservation(r: SessionRow): SessionRow {
    if r.reservation.Released? then r else r.(reservation := Released, releases := r.releases + 1)
  }

  function FreeSlot(r: CommandRow): CommandRow {
    if r.slot != Some(Held) then r else r.(slot := Some(Released), slotReleases := r.slotReleases + 1)
  }

  /** A command-state write appends one terminal event exactly when the new state is terminal. */
  function Write(r: CommandRow, to: CommandState): CommandRow {
    r.(state := to, terminalWrites := if CommandTerminal(to) then r.terminalWrites + 1 else r.terminalWrites)
  }

  function SessionStep(epoch: nat, r: SessionRow, op: SessionOp): Option<SessionRow> {
    match op
    case FailPreStart =>
      if !r.state.Creating? || r.generation || r.reservation.Released? then None
      else Some(FreeReservation(r).(state := SessionState.Failed))
    case CompleteCreation(next, generation) =>
      if !r.state.Creating? || !(next.Ready? || next.Failed? || next.Lost?) || (next.Ready? && !generation) then None
      else Some(r.(state := next, generation := generation || r.generation))
    case CompleteFailedCreation =>
      if !r.state.Creating? || r.reservation.Released? then None
      else Some(FreeReservation(r).(state := SessionState.Failed, generation := true))
    case Transition(next) =>
      if !SessionEdge(r.state, next) || !(next.Closing? || next.Closed? || next.Expired? || next.Lost?) then None
      else Some(r.(state := next))
    case ConfirmCleanup => Some(FreeReservation(r))
    case Spawn => if r.creator != Some(epoch) then None else Some(r.(alive := true))
    case NeverStarted =>
      if r.creator != Some(epoch) || r.alive then None else Some(r.(gone := true, creator := None))
    case EndCreation => if r.creator != Some(epoch) then None else Some(r.(creator := None))
    case Stopped => Some(r.(alive := false, gone := true))
  }

  function CommandStep(epoch: nat, s: SessionRow, r: CommandRow, op: CommandOp): Option<CommandRow> {
    match op
    case Move(to) =>
      if !CommandEdge(r.state, to) || !(to.Cancelling? || to.Cancelled? || to.Rejected?) then None
      else Some(Write(r, to))
    case Send =>
      if r.claim != Some(epoch) || !s.alive then None else Some(r.(claim := None, sent := r.sent + 1))
    case Boundary => if r.sent == 0 then None else Some(r.(ended := true))
    case DropClaim => if r.claim != Some(epoch) then None else Some(r.(claim := None))
  }

  function SessionCommands(w: World, x: SessionId): set<CommandId> {
    set c | c in w.commands && w.commands[c].session == x
  }

  /** The scheduler's guard: a queued command of a ready session, with every earlier command of its session
      terminal, and a free slot. */
  predicate Eligible(w: World, c: CommandId) {
    && c in w.commands && w.commands[c].state.Queued? && w.commands[c].slot.None?
    && InState(w, w.commands[c].session, Ready)
    && IsHead(w, c)
    && |LiveSlots(w)| < RUNNING_COMMAND_LIMIT
  }

  /** No unfinished command of the same session comes before c. */
  predicate IsHead(w: World, c: CommandId)
    requires c in w.commands
  {
    forall d | d in w.commands && w.commands[d].session == w.commands[c].session
               && w.commands[d].ordinal < w.commands[c].ordinal :: CommandTerminal(w.commands[d].state)
  }

  predicate CanComplete(s: SessionRow, r: CommandRow, to: CommandState, sessionNext: SessionState, release: bool) {
    && CommandActive(r.state) && CommandTerminal(to) && CommandEdge(r.state, to)
    && (sessionNext.Ready? || sessionNext.Closing? || sessionNext.Expired? || sessionNext.Lost?)
    && (s.state == sessionNext || SessionEdge(s.state, sessionNext))
    && (release ==> r.slot == Some(Held))
  }

  /** What a selected lost pair or bare lost session must look like inside the release transaction. */
  predicate RecoverablePair(w: World, c: CommandId) {
    && c in w.commands && w.commands[c].state.Lost? && w.commands[c].slot.Some?
    && InState(w, w.commands[c].session, SessionState.Lost)
    && w.sessions[w.commands[c].session].generation
    && w.commands[c].slot.value == w.sessions[w.commands[c].session].reservation
  }

  predicate RecoverableBare(w: World, x: SessionId) {
    && InState(w, x, SessionState.Lost)
    && (forall c | c in w.commands :: w.commands[c].session != x)
  }

  /** The release transaction accepts an explicit set only when its counts cover everything live. */
  predicate CanReleaseLost(w: World, pairs: set<CommandId>, bare: set<SessionId>) {
    && (forall c | c in pairs :: RecoverablePair(w, c))
    && (forall x | x in bare :: RecoverableBare(w, x))
    && (forall c, d | c in pairs && d in pairs && c != d :: w.commands[c].session != w.commands[d].session)
    && ((pairs * LiveSlots(w) == {} && bare * LiveReservations(w) == {})
        || (|LiveSlots(w)| == |pairs * LiveSlots(w)|
            && |LiveReservations(w)| == |pairs * LiveSlots(w)| + |bare * LiveReservations(w)|))
  }

  function PairSessions(w: World, pairs: set<CommandId>): set<SessionId> {
    set c | c in pairs && c in w.commands :: w.commands[c].session
  }

  function ReleaseAll(w: World, pairs: set<CommandId>, bare: set<SessionId>): World {
    var selected := bare + PairSessions(w, pairs);
    w.(sessions := map x | x in w.sessions ::
         if x in selected then FreeReservation(w.sessions[x]) else w.sessions[x],
       commands := map c | c in w.commands ::
         if c in pairs then FreeSlot(w.commands[c]) else w.commands[c])
  }

  function PutSession(w: World, x: SessionId, r: SessionRow): World {
    w.(sessions := w.sessions[x := r])
  }

  function PutCommand(w: World, c: CommandId, r: CommandRow): World {
    w.(commands := w.commands[c := r])
  }

  function PutJob(w: World, j: JobId, r: Job): World {
    w.(jobs := w.jobs[j := r])
  }

  /** A new command gets the session's next ordinal. */
  function NewCommand(w: World, x: SessionId): CommandRow {
    CommandRow(x, |SessionCommands(w, x)| + 1, Queued, None, None, 0, false, 0, 0)
  }

  function Apply(w: World, a: Action): Option<World> {
    match a
    case AcceptCreate(x) =>
      if x in w.sessions || |LiveReservations(w)| >= w.limit then None
      else Some(PutSession(w, x, SessionRow(Creating, false, Held, false, false, Some(w.epoch), 0)))
    case OnSession(x, op) =>
      if x !in w.sessions then None else
        var r := SessionStep(w.epoch, w.sessions[x], op);
        if r.None? then None else Some(PutSession(w, x, r.value))
    case AcceptCommand(c, x) =>
      if c in w.commands || !(InState(w, x, Ready) || InState(w, x, Busy)) then None
      else Some(PutCommand(w, c, NewCommand(w, x)))
    case OnCommand(c, op) =>
      if c !in w.commands || w.commands[c].session !in w.sessions then None else
        var r := CommandStep(w.epoch, w.sessions[w.commands[c].session], w.commands[c], op);
        if r.None? then None else Some(PutCommand(w, c, r.value))
    case StartCommand(c) =>
      if !Eligible(w, c) then None else
        var r := w.commands[c];
        Some(PutCommand(PutSession(w, r.session, w.sessions[r.session].(state := Busy)),
                        c, Write(r, Running).(slot := Some(Held), claim := Some(w.epoch))))
    case CompleteCommand(c, to, sessionNext, release) =>
      if c !in w.commands || w.commands[c].session !in w.sessions
         || !CanComplete(w.sessions[w.commands[c].session], w.commands[c], to, sessionNext, release) then None else
        var r := w.commands[c];
        Some(PutCommand(PutSession(w, r.session, w.sessions[r.session].(state := sessionNext)),
                        c, if release then FreeSlot(Write(r, to)) else Write(r, to)))
    case ReleaseLost(pairs, bare) =>
      if !CanReleaseLost(w, pairs, bare) then None else Some(ReleaseAll(w, pairs, bare))
    case AcceptJob(j, x, c) =>
      if j in w.jobs then None else Some(PutJob(w, j, Job(x, c, CreatingSession)))
    case Checkpoint(j, expected, phase) =>
      if j !in w.jobs || w.jobs[j].phase != expected then None
      else Some(PutJob(w, j, w.jobs[j].(phase := phase)))
    case Crash => Some(w.(epoch := w.epoch + 1))
  }

  /** What a caller must know of a session before it writes the row: releases need a proof that the
      session is gone, and nobody settles or stops a session whose creating call is still running. */
  predicate SessionLicence(epoch: nat, r: SessionRow, op: SessionOp) {
    match op
    case FailPreStart => r.gone
    case CompleteFailedCreation => r.gone
    case ConfirmCleanup => r.gone
    case CompleteCreation(_, _) => r.creator != Some(epoch)
    case Transition(_) => r.creator != Some(epoch)
    case Stopped => r.creator != Some(epoch)
    case _ => true
  }

  /** What a checkpointed phase promises: the command was accepted for the job's own session, it has
      ended before the session is closed, and the session is closed before the job is complete. */
  predicate JobOk(w: World, j: Job) {
    && (j.phase.AwaitingCommand? || j.phase.ClosingSession? || j.phase.Complete? ==>
          j.command in w.commands && w.commands[j.command].session == j.session)
    && (j.phase.ClosingSession? || j.phase.Complete? ==> Finished(w, j.command))
    && (j.phase.Complete? ==> InState(w, j.session, Closed))
  }

  predicate Advances(expected: JobPhase, phase: JobPhase) {
    expected == phase || PhaseRank(expected) < PhaseRank(phase)
  }

  predicate Licensed(w: World, a: Action) {
    match a
    case OnSession(x, op) => x in w.sessions && SessionLicence(w.epoch, w.sessions[x], op)
    case CompleteCommand(c, _, _, release) => release ==> Ended(w, c)
    case ReleaseLost(pairs, bare) =>
      && (forall c | c in pairs :: c in w.commands && Gone(w, w.commands[c].session))
      && (forall x | x in bare :: Gone(w, x))
    case Checkpoint(j, expected, phase) =>
      && Advances(expected, phase)
      && j in w.jobs && JobOk(w, w.jobs[j].(phase := phase))
    case _ => true
  }

  /** Nothing is released before its session is proved gone, each reservation is released at most
      once, and a session proved gone is not alive and can no longer be started. */
  predicate SessionOk(epoch: nat, r: SessionRow) {
    && !r.state.Requested?
    && (r.reservation.Released? ==> r.gone)
    && (r.alive ==> !r.gone)
    && (r.creator == Some(epoch) ==> r.state.Creating? && !r.gone)
    && (r.creator.Some? ==> r.creator.value <= epoch)
    && r.releases == (if r.reservation.Released? then 1 else 0)
  }

  /** A slot is released only after the command's boundary, and at most once; a script is sent at
      most once; a terminal state is written at most once. */
  predicate CommandOk(epoch: nat, s: SessionRow, r: CommandRow) {
    && !s.state.Creating? && !s.state.Failed?
    && (CommandActive(r.state) ==> r.slot == Some(Held))
    && (r.state.Queued? ==> r.slot.None?)
    && (r.slot == Some(Released) ==> r.ended || s.gone)
    && (r.ended ==> r.sent == 1)
    && r.sent <= 1 && (r.sent == 1 ==> r.slot.Some?)
    && (r.sent == 1 && !r.ended && !s.gone ==> s.alive)
    && (r.claim == Some(epoch) ==> r.sent == 0 && r.slot.Some?)
    && (r.claim.Some? ==> r.claim.value <= epoch)
    && r.terminalWrites == (if CommandTerminal(r.state) then 1 else 0)
    && r.slotReleases == (if r.slot == Some(Released) then 1 else 0)
  }

  predicate Rows(w: World) {
    && (forall x | x in w.sessions :: SessionOk(w.epoch, w.sessions[x]))
    && (forall c | c in w.commands ::
          w.commands[c].session in w.sessions
          && CommandOk(w.epoch, w.sessions[w.commands[c].session], w.commands[c]))
    && (forall j | j in w.jobs :: JobOk(w, w.jobs[j]))
  }

  predicate Bounded(w: World) {
    |LiveReservations(w)| <= w.limit && |LiveSlots(w)| <= RUNNING_COMMAND_LIMIT
  }

  predicate Inv(w: World) {
    Rows(w) && Bounded(w)
  }

  predicate SessionEnding(s: SessionState) {
    s.Closing? || SessionTerminal(s)
  }

  /** What no step ever takes back: terminal states, proofs, releases, and given-up tokens. */
  predicate SessionLater(before: SessionRow, after: SessionRow) {
    && (SessionTerminal(before.state) ==> after.state == before.state)
    && (!before.state.Creating? ==> !after.state.Creating?)
    && (!before.state.Creating? && !before.state.Failed? ==> !after.state.Failed?)
    && (SessionEnding(before.state) ==> SessionEnding(after.state))
    && (before.gone ==> after.gone)
    && (before.alive && !after.gone ==> after.alive)
    && (before.reservation.Released? ==> after.reservation.Released?)
    && (after.creator.Some? ==> after.creator == before.creator)
  }

  predicate CommandLater(before: CommandRow, after: CommandRow) {
    && after.session == before.session && after.ordinal == before.ordinal
    && (CommandTerminal(before.state) ==> after.state == before.state)
    && (!before.state.Queued? ==> !after.state.Queued? && !(after.state.Running? && !before.state.Running?))
    && (before.ended ==> after.ended)
    && before.sent <= after.sent
    && (before.slot == Some(Released) ==> after.slot == Some(Released))
    && (before.slot.Some? ==> after.slot.Some?)
  }

  predicate JobLater(before: Job, after: Job) {
    after.session == before.session && after.command == before.command && Advances(before.phase, after.phase)
  }

  predicate Grows(w: World, v: World) {
    && w.limit == v.limit && w.epoch <= v.epoch
    && (forall x | x in w.sessions :: x in v.sessions && SessionLater(w.sessions[x], v.sessions[x]))
    && (forall c | c in w.commands :: c in v.commands && CommandLater(w.commands[c], v.commands[c]))
    && (forall j | j in w.jobs :: j in v.jobs && JobLater(w.jobs[j], v.jobs[j]))
    && (forall c | c in v.commands && c !in w.commands :: Admits(w, v.commands[c].session))
  }

  /** Closing and terminal sessions accept no further commands. */
  predicate Admits(w: World, x: SessionId) {
    x in w.sessions ==> !SessionEnding(w.sessions[x].state)
  }

  lemma GrowsTransitive(u: World, v: World, w: World)
    requires Grows(u, v) && Grows(v, w)
    ensures Grows(u, w)
  {
  }

  // ---- one row at a time ----

  lemma SessionStepSound(epoch: nat, r: SessionRow, op: SessionOp)
    requires SessionOk(epoch, r) && SessionLicence(epoch, r, op) && SessionStep(epoch, r, op).Some?
    ensures SessionOk(epoch, SessionStep(epoch, r, op).value)
    ensures SessionLater(r, SessionStep(epoch, r, op).value)
  {
  }

  lemma CommandStepSound(epoch: nat, s: SessionRow, r: CommandRow, op: CommandOp)
    requires SessionOk(epoch, s) && CommandOk(epoch, s, r) && CommandStep(epoch, s, r, op).Some?
    ensures CommandOk(epoch, s, CommandStep(epoch, s, r, op).value)
    ensures CommandLater(r, CommandStep(epoch, s, r, op).value)
  {
  }

  lemma JobSurvives(w: World, v: World, j: Job)
    requires Grows(w, v) && JobOk(w, j)
    ensures JobOk(v, j)
  {
    if j.command in w.commands {
      assert CommandLater(w.commands[j.command], v.commands[j.command]);
    }
    if j.session in w.sessions {
      assert SessionLater(w.sessions[j.session], v.sessions[j.session]);
    }
  }

  lemma JobsSurvive(w: World, v: World)
    requires Grows(w, v) && forall j | j in w.jobs :: JobOk(w, w.jobs[j])
    ensures forall j | j in w.jobs :: JobOk(v, w.jobs[j])
  {
    forall j | j in w.jobs ensures JobOk(v, w.jobs[j]) {
      JobSurvives(w, v, w.jobs[j]);
    }
  }

  lemma CommandSurvives(epoch: nat, s: SessionRow, t: SessionRow, r: CommandRow)
    requires CommandOk(epoch, s, r) && SessionLater(s, t)
    ensures CommandOk(epoch, t, r)
  {
  }

  lemma PutSessionSound(w: World, x: SessionId, r: SessionRow)
    requires Rows(w) && SessionOk(w.epoch, r)
    requires x in w.sessions ==> SessionLater(w.sessions[x], r)
    ensures Rows(PutSession(w, x, r)) && Grows(w, PutSession(w, x, r))
  {
    var v := PutSession(w, x, r);
    assert Grows(w, v);
    JobsSurvive(w, v);
    forall c | c in v.commands ensures CommandOk(v.epoch, v.sessions[v.commands[c].session], v.commands[c]) {
      var y := v.commands[c].session;
      CommandSurvives(w.epoch, w.sessions[y], v.sessions[y], w.commands[c]);
    }
  }

  lemma PutCommandSound(w: World, c: CommandId, r: CommandRow)
    requires Rows(w) && r.session in w.sessions && CommandOk(w.epoch, w.sessions[r.session], r)
    requires if c in w.commands then CommandLater(w.commands[c], r) else Admits(w, r.session)
    ensures Rows(PutCommand(w, c, r)) && Grows(w, PutCommand(w, c, r))
  {
    JobsSurvive(w, PutCommand(w, c, r));
  }

  lemma PutBothSound(w: World, x: SessionId, s: SessionRow, c: CommandId, r: CommandRow)
    requires Rows(w) && c in w.commands && x == w.commands[c].session == r.session
    requires SessionOk(w.epoch, s) && x in w.sessions && SessionLater(w.sessions[x], s)
    requires CommandOk(w.epoch, s, r) && CommandLater(w.commands[c], r)
    ensures Rows(PutCommand(PutSession(w, x, s), c, r)) && Grows(w, PutCommand(PutSession(w, x, s), c, r))
  {
    var v := PutSession(w, x, s);
    PutSessionSound(w, x, s);
    PutCommandSound(v, c, r);
    GrowsTransitive(w, v, PutCommand(v, c, r));
  }

  lemma PutJobSound(w: World, j: JobId, r: Job)
    requires Rows(w) && JobOk(w, r) && (j in w.jobs ==> JobLater(w.jobs[j], r))
    ensures Rows(PutJob(w, j, r)) && Grows(w, PutJob(w, j, r))
  {
    var v := PutJob(w, j, r);
    forall k | k in v.jobs ensures JobOk(v, v.jobs[k]) {
      assert JobOk(w, v.jobs[k]);
    }
  }

  lemma ReleaseSessionSound(epoch: nat, r: SessionRow)
    requires SessionOk(epoch, r) && r.gone
    ensures SessionOk(epoch, FreeReservation(r)) && SessionLater(r, FreeReservation(r))
  {
  }

  lemma ReleaseSlotSound(epoch: nat, s: SessionRow, r: CommandRow)
    requires CommandOk(epoch, s, r) && s.gone && CommandTerminal(r.state)
    ensures CommandOk(epoch, s, FreeSlot(r)) && CommandLater(r, FreeSlot(r))
  {
  }

  predicate Releasable(w: World, pairs: set<CommandId>, bare: set<SessionId>) {
    && (forall c | c in pairs :: Finished(w, c) && Gone(w, w.commands[c].session))
    && (forall x | x in bare :: Gone(w, x))
  }

  lemma ReleaseAllSessions(w: World, pairs: set<CommandId>, bare: set<SessionId>, x: SessionId)
    requires Rows(w) && Releasable(w, pairs, bare) && x in w.sessions
    ensures x in ReleaseAll(w, pairs, bare).sessions
    ensures SessionOk(w.epoch, ReleaseAll(w, pairs, bare).sessions[x])
    ensures SessionLater(w.sessions[x], ReleaseAll(w, pairs, bare).sessions[x])
  {
    if x in bare + PairSessions(w, pairs) {
      ReleaseSessionSound(w.epoch, w.sessions[x]);
    }
  }

  lemma ReleaseAllCommands(w: World, pairs: set<CommandId>, bare: set<SessionId>, c: CommandId)
    requires Rows(w) && Releasable(w, pairs, bare) && c in w.commands
    ensures var v := ReleaseAll(w, pairs, bare);
            && c in v.commands && CommandLater(w.commands[c], v.commands[c])
            && v.commands[c].session in v.sessions
            && CommandOk(v.epoch, v.sessions[v.commands[c].session], v.commands[c])
  {
    var y := w.commands[c].session;
    ReleaseAllSessions(w, pairs, bare, y);
    var t := ReleaseAll(w, pairs, bare).sessions[y];
    CommandSurvives(w.epoch, w.sessions[y], t, w.commands[c]);
    if c in pairs {
      ReleaseSlotSound(w.epoch, t, w.commands[c]);
    }
  }

  /** Rows that are kept and grown one by one make a world that is kept and grown. */
  lemma Pointwise(w: World, v: World)
    requires Rows(w) && v.limit == w.limit && v.epoch == w.epoch && v.jobs == w.jobs
    requires v.sessions.Keys == w.sessions.Keys && v.commands.Keys == w.commands.Keys
    requires forall x | x in w.sessions ::
               SessionOk(w.epoch, v.sessions[x]) && SessionLater(w.sessions[x], v.sessions[x])
    requires forall c | c in w.commands ::
               && CommandLater(w.commands[c], v.commands[c])
               && v.commands[c].session in v.sessions
               && CommandOk(w.epoch, v.sessions[v.commands[c].session], v.commands[c])
    ensures Rows(v) && Grows(w, v)
  {
    JobsSurvive(w, v);
  }

  lemma ReleaseAllSound(w: World, pairs: set<CommandId>, bare: set<SessionId>)
    requires Rows(w) && Releasable(w, pairs, bare)
    ensures Rows(ReleaseAll(w, pairs, bare)) && Grows(w, ReleaseAll(w, pairs, bare))
  {
    forall x | x in w.sessions { ReleaseAllSessions(w, pairs, bare, x); }
    forall c | c in w.commands { ReleaseAllCommands(w, pairs, bare, c); }
    Pointwise(w, ReleaseAll(w, pairs, bare));
  }

  lemma CompleteSound(epoch: nat, s: SessionRow, r: CommandRow, to: CommandState, sessionNext: SessionState,
                      release: bool)
    requires SessionOk(epoch, s) && CommandOk(epoch, s, r) && CanComplete(s, r, to, sessionNext, release)
    requires release ==> r.ended || s.gone
    ensures SessionOk(epoch, s.(state := sessionNext)) && SessionLater(s, s.(state := sessionNext))
    ensures CommandOk(epoch, s.(state := sessionNext), if release then FreeSlot(Write(r, to)) else Write(r, to))
    ensures CommandLater(r, if release then FreeSlot(Write(r, to)) else Write(r, to))
  {
  }

  lemma CrashSound(w: World)
    requires Rows(w)
    ensures Rows(w.(epoch := w.epoch + 1)) && Grows(w, w.(epoch := w.epoch + 1))
  {
    var v := w.(epoch := w.epoch + 1);
    JobsSurvive(w, v);
  }

  /** The two transactions that write a command together with its session. */
  lemma BothRowsKept(w: World, a: Action)
    requires Rows(w) && Licensed(w, a) && Apply(w, a).Some? && (a.StartCommand? || a.CompleteCommand?)
    ensures Rows(Apply(w, a).value) && Grows(w, Apply(w, a).value)
  {
    match a
    case StartCommand(c) =>
      var r := w.commands[c];
      PutBothSound(w, r.session, w.sessions[r.session].(state := Busy), c,
                   Write(r, Running).(slot := Some(Held), claim := Some(w.epoch)));
    case CompleteCommand(c, to, sessionNext, release) =>
      var r := w.commands[c];
      CompleteSound(w.epoch, w.sessions[r.session], r, to, sessionNext, release);
      PutBothSound(w, r.session, w.sessions[r.session].(state := sessionNext), c,
                   if release then FreeSlot(Write(r, to)) else Write(r, to));
    case _ =>
  }

  lemma RowsKept(w: World, a: Action)
    requires Rows(w) && Licensed(w, a) && Apply(w, a).Some?
    ensures Rows(Apply(w, a).value) && Grows(w, Apply(w, a).value)
  {
    match a
    case AcceptCreate(x) =>
      PutSessionSound(w, x, SessionRow(Creating, false, Held, false, false, Some(w.epoch), 0));
    case OnSession(x, op) =>
      SessionStepSound(w.epoch, w.sessions[x], op);
      PutSessionSound(w, x, SessionStep(w.epoch, w.sessions[x], op).value);
    case AcceptCommand(c, x) =>
      PutCommandSound(w, c, NewCommand(w, x));
    case OnCommand(c, op) =>
      var s := w.sessions[w.commands[c].session];
      CommandStepSound(w.epoch, s, w.commands[c], op);
      PutCommandSound(w, c, CommandStep(w.epoch, s, w.commands[c], op).value);
    case StartCommand(c) => BothRowsKept(w, a);
    case CompleteCommand(_, _, _, _) => BothRowsKept(w, a);
    case ReleaseLost(pairs, bare) =>
      assert forall c | c in pairs :: RecoverablePair(w, c);
      ReleaseAllSound(w, pairs, bare);
    case AcceptJob(j, x, c) => PutJobSound(w, j, Job(x, c, CreatingSession));
    case Checkpoint(j, _, phase) => PutJobSound(w, j, w.jobs[j].(phase := phase));
    case Crash => CrashSound(w);
  }

  // ---- capacity ----

  lemma ReservationsShrink(w: World, v: World)
    requires Grows(w, v) && v.sessions.Keys == w.sessions.Keys
    ensures |LiveReservations(v)| <= |LiveReservations(w)|
  {
    assert LiveReservations(v) <= LiveReservations(w);
    SubsetSize(LiveReservations(v), LiveReservations(w));
  }

  lemma SlotsShrink(w: World, v: World)
    requires Grows(w, v)
    requires forall c | c in LiveSlots(v) :: c in w.commands && w.commands[c].slot.Some?
    ensures |LiveSlots(v)| <= |LiveSlots(w)|
  {
    forall c | c in LiveSlots(v) ensures c in LiveSlots(w) {
      assert CommandLater(w.commands[c], v.commands[c]);
      assert w.commands[c].slot.value.Held?;
    }
    SubsetSize(LiveSlots(v), LiveSlots(w));
  }

  /** Only the scheduler opens a slot. */
  lemma NoNewSlot(w: World, a: Action, c: CommandId)
    requires Apply(w, a).Some? && !a.StartCommand? && c in LiveSlots(Apply(w, a).value)
    ensures c in w.commands && w.commands[c].slot.Some?
  {
  }

  lemma NoNewSession(w: World, a: Action)
    requires Apply(w, a).Some? && !a.AcceptCreate?
    requires forall c | c in w.commands :: w.commands[c].session in w.sessions
    ensures Apply(w, a).value.sessions.Keys == w.sessions.Keys
  {
  }

  lemma ReservationsBounded(w: World, a: Action)
    requires Rows(w) && |LiveReservations(w)| <= w.limit && Apply(w, a).Some? && Grows(w, Apply(w, a).value)
    ensures |LiveReservations(Apply(w, a).value)| <= w.limit
  {
    var v := Apply(w, a).value;
    if a.AcceptCreate? {
      assert LiveReservations(v) == LiveReservations(w) + {a.session};
    } else {
      NoNewSession(w, a);
      ReservationsShrink(w, v);
    }
  }

  lemma SlotsBounded(w: World, a: Action)
    requires |LiveSlots(w)| <= RUNNING_COMMAND_LIMIT && Apply(w, a).Some? && Grows(w, Apply(w, a).value)
    ensures |LiveSlots(Apply(w, a).value)| <= RUNNING_COMMAND_LIMIT
  {
    var v := Apply(w, a).value;
    if a.StartCommand? {
      assert LiveSlots(v) == LiveSlots(w) + {a.command};
    } else {
      forall c | c in LiveSlots(v) ensures c in w.commands && w.commands[c].slot.Some? {
        NoNewSlot(w, a, c);
      }
      SlotsShrink(w, v);
    }
  }

  /** Every licensed step keeps the invariant and takes nothing back. */
  lemma StepSound(w: World, a: Action)
    requires Inv(w) && Licensed(w, a) && Apply(w, a).Some?
    ensures Inv(Apply(w, a).value) && Grows(w, Apply(w, a).value)
  {
    RowsKept(w, a);
    ReservationsBounded(w, a);
    SlotsBounded(w, a);
  }
}
