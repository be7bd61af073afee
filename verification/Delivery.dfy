/** The uncertain-delivery protocol as a transition system: local intents, the frames sent for them, what
    came back through the bridge, and what the target has taken up.  A frame whose reply never came may
    still reach the target at any later time. */
module Delivery {
  import opened Common

  type IntentId = nat

  datatype Operation = CreateSession | SubmitCommand | CancelCommand | CloseSession | RunJob

  datatype DeliveryState = Recorded | Dispatching | Uncertain | Accepted | Reconciled | NotDelivered

  /** The stored reason of the step that settled an intent, up to its wording. */
  datatype Basis =
    | Undecided                // not settled yet
    | Withheld                 // given up locally, before any frame left
    | Refused                  // the target answered a frame with a rejection
    | ByAnswer                 // the target answered a frame with its result
    | ByReading                // a later read found the resource
    | Abandoned                // the owner gave up an uncertain run

  datatype Intent = Intent(
    operation: Operation,
    session: nat,
    command: nat,
    ordinal: int,              // the session's order of submits
    state: DeliveryState,
    basis: Basis,
    since: int,                // the clock reading of its last change of state
    expiry: int,               // when the target's idempotency guarantee ends
    taken: bool,               // the target took it up: recorded it under its idempotency key
    frames: seq<Sent>)         // every mutation frame sent for it

  /** The mutation frame of an intent; the intent id is its request id and idempotency key. */
  datatype Frame = Frame(id: IntentId, operation: Operation, session: nat, command: nat)

  /** What the bridge relayed: the target's reply, a broken piece of it, or nothing. */
  datatype Reply = Whole | Broken | Missing

  /** A frame with the clock reading of its last expiry check and of its sending, and its reply. */
  datatype Sent = Sent(frame: Frame, checked: int, at: int, reply: Reply)

  datatype World = World(intents: map<IntentId, Intent>, now: int)

  function FrameOf(id: IntentId, r: Intent): Frame {
    Frame(id, r.operation, r.session, r.command)
  }

  /** Cancel and close only control a resource, and are taken up before they take effect; the other
      operations bring a resource into being in the same write that takes them up. */
  predicate Creates(op: Operation) {
    op.CreateSession? || op.SubmitCommand? || op.RunJob?
  }

  /** The target answered every frame, and the bridge relayed every answer. */
  predicate AllWhole(frames: seq<Sent>) {
    forall k | 0 <= k < |frames| :: frames[k].reply.Whole?
  }

  predicate Settled(state: DeliveryState) {
    state.Accepted? || state.Reconciled? || state.NotDelivered?
  }

  predicate Edge(from: DeliveryState, to: DeliveryState) {
    match from
    case Recorded => to.Dispatching? || to.NotDelivered?
    case Dispatching => to.Uncertain? || to.Accepted? || to.NotDelivered?
    case Uncertain => to.Dispatching? || to.Accepted? || to.Reconciled? || to.NotDelivered?
    case Accepted => to.Reconciled?
    case _ => false
  }

  datatype Step =
    | Claim                                       // ClaimLocalIntent
    | Mark(to: DeliveryState, basis: Basis)       // TransitionLocalIntent
    | Send(frame: Frame, checked: int, applied: bool, reply: Reply)
    | Land(k: nat)                                // a frame without a reply reaches the target after all

  datatype Action =
    | Record(id: IntentId, operation: Operation, session: nat, command: nat, ordinal: int, expiry: int)
    | OnIntent(id: IntentId, step: Step)
    | Tick(now: int)

  function NewIntent(operation: Operation, session: nat, command: nat, ordinal: int, now: int, expiry: int): Intent {
    Intent(operation, session, command, ordinal, Recorded, Undecided, now, expiry, false, [])
  }

  /** The reason of an acceptance stays in the intent's lifecycle when it is reconciled. */
  function RowStep(r: Intent, now: int, step: Step): Option<Intent> {
    match step
    case Claim => if !r.state.Recorded? then None else Some(r.(state := Dispatching, since := now))
    case Mark(to, basis) =>
      if to == r.state then Some(r)
      else if !Edge(r.state, to) then None
      else Some(r.(state := to, since := now, basis := if r.state.Accepted? then r.basis else basis))
    case Send(frame, checked, applied, reply) =>
      Some(r.(taken := r.taken || applied, frames := r.frames + [Sent(frame, checked, now, reply)]))
    case Land(k) => if k >= |r.frames| || !r.frames[k].reply.Missing? then None else Some(r.(taken := true))
  }

  /** p is an earlier submit of the same session. */
  predicate Precedes(p: Intent, r: Intent) {
    p.operation.SubmitCommand? && r.operation.SubmitCommand? && p.session == r.session && p.ordinal < r.ordinal
  }

  /** A new submit is never placed before an existing one of its session. */
  predicate IsNext(w: World, r: Intent) {
    forall i | i in w.intents :: !Precedes(r, w.intents[i])
  }

  /** The work of this submit is over for the driver. */
  predicate OutOfTheWay(r: Intent) {
    r.state.Reconciled? || r.state.NotDelivered?
  }

  /** A submit may be claimed only when every earlier submit of its session is out of the way. */
  predicate MayClaim(w: World, r: Intent) {
    forall i | i in w.intents && Precedes(w.intents[i], r) :: OutOfTheWay(w.intents[i])
  }

  function Apply(w: World, a: Action): Option<World> {
    match a
    case Record(id, operation, session, command, ordinal, expiry) =>
      var r := NewIntent(operation, session, command, ordinal, w.now, expiry);
      if id in w.intents || !IsNext(w, r) then None else Some(w.(intents := w.intents[id := r]))
    case OnIntent(id, step) =>
      if id !in w.intents || (step.Claim? && !MayClaim(w, w.intents[id])) then None else
        var r := RowStep(w.intents[id], w.now, step);
        if r.None? then None else Some(w.(intents := w.intents[id := r.value]))
    case Tick(now) => if now < w.now then None else Some(w.(now := now))
  }

  /** What a settled row says of the target's part.  An answer with the result decides, and so does a reading
      of what the intent was to create.  A rejection decides only for what creates, and only if no reply was
      broken or missing: the bridge turns a broken reply into a rejection, and a frame without a reply may
      still land.  A rejected cancel or close may have taken effect before its handler failed. */
  predicate Agrees(op: Operation, basis: Basis, taken: bool, whole: bool) {
    match basis
    case Undecided => true
    case Withheld => !taken && whole
    case Refused => Creates(op) && whole ==> !taken
    case ByAnswer => taken
    case ByReading => Creates(op) ==> taken
    case Abandoned => true
  }

  /** What the driver must know before it settles an intent or leaves it in doubt. */
  predicate MarkLicence(r: Intent, to: DeliveryState, basis: Basis) {
    match to
    case NotDelivered =>
      && ((basis.Withheld? && r.frames == []) || (basis.Refused? && r.frames != []))
      && Agrees(r.operation, basis, r.taken, AllWhole(r.frames))
    case Accepted => (basis.ByAnswer? || basis.ByReading?) && Agrees(r.operation, basis, r.taken, AllWhole(r.frames))
    case Reconciled =>
      || ((r.state.Accepted? || r.state.Reconciled?) && (r.operation.SubmitCommand? || r.operation.RunJob?))
      || (r.state.Uncertain? && r.operation.RunJob? && basis.Abandoned?)
    case Uncertain => basis.Undecided?
    case _ => false
  }

  predicate RowLicence(id: IntentId, r: Intent, now: int, step: Step) {
    match step
    case Mark(to, basis) => MarkLicence(r, to, basis)
    case Send(frame, checked, _, _) =>
      (r.state.Dispatching? || r.state.Uncertain?) && frame == FrameOf(id, r) && checked < r.expiry && checked <= now
    case _ => true
  }

  predicate Licensed(w: World, a: Action) {
    a.OnIntent? ==> a.id in w.intents && RowLicence(a.id, w.intents[a.id], w.now, a.step)
  }

  /** Whether a stored reason decides if the target took the intent up. */
  predicate Decides(op: Operation, basis: Basis) {
    basis.Withheld? || basis.ByAnswer? || (basis.ByReading? && Creates(op))
  }

  /** The reasons a delivery state can rest on. */
  predicate Rests(op: Operation, state: DeliveryState, basis: Basis) {
    match state
    case NotDelivered => basis.Withheld? || basis.Refused?
    case Accepted => basis.ByAnswer? || basis.ByReading?
    case Reconciled =>
      ((basis.ByAnswer? || basis.ByReading?) && (op.SubmitCommand? || op.RunJob?)) || (basis.Abandoned? && op.RunJob?)
    case _ => basis.Undecided?
  }

  predicate FrameOk(id: IntentId, r: Intent, s: Sent, now: int) {
    s.frame == FrameOf(id, r) && s.checked < r.expiry && s.checked <= s.at <= now
  }

  predicate IntentOk(id: IntentId, r: Intent, now: int) {
    && (r.state.Recorded? ==> r.frames == [])
    && (r.taken ==> r.frames != [])
    && Rests(r.operation, r.state, r.basis)
    && (r.basis.Withheld? ==> r.frames == [])
    && Agrees(r.operation, r.basis, r.taken, AllWhole(r.frames))
    && (forall k | 0 <= k < |r.frames| :: FrameOk(id, r, r.frames[k], now))
  }

  predicate Inv(w: World) {
    forall id | id in w.intents :: IntentOk(id, w.intents[id], w.now)
  }

  /** What no step takes back. */
  predicate Later(r: Intent, s: Intent) {
    && s.operation == r.operation && s.session == r.session && s.command == r.command
    && s.ordinal == r.ordinal && s.expiry == r.expiry
    && (r.taken ==> s.taken)
    && |r.frames| <= |s.frames| && s.frames[..|r.frames|] == r.frames
    && (!r.state.Recorded? ==> !s.state.Recorded?)
    && (Settled(r.state) ==> SettledAlike(r, s) && (s.state == r.state || (r.state.Accepted? && s.state.Reconciled?)))
  }

  /** A settled intent keeps its reason and its frames, and where every reply came whole also its outcome. */
  predicate SettledAlike(r: Intent, s: Intent) {
    && s.frames == r.frames && s.basis == r.basis && (s.state.NotDelivered? <==> r.state.NotDelivered?)
    && (AllWhole(r.frames) ==> s.taken == r.taken)
  }

  predicate Grows(w: World, v: World) {
    w.now <= v.now && forall id | id in w.intents :: id in v.intents && Later(w.intents[id], v.intents[id])
  }

  lemma RowStepSound(id: IntentId, r: Intent, now: int, step: Step)
    requires IntentOk(id, r, now) && RowLicence(id, r, now, step) && RowStep(r, now, step).Some?
    ensures IntentOk(id, RowStep(r, now, step).value, now) && Later(r, RowStep(r, now, step).value)
  {
  }

  /** A licence, once earned, is not lost when a frame lands before it is used. */
  lemma LandingKeepsLicence(id: IntentId, r: Intent, now: int, step: Step, k: nat)
    requires RowLicence(id, r, now, step) && RowStep(r, now, Land(k)).Some?
    ensures RowLicence(id, RowStep(r, now, Land(k)).value, now, step)
  {
    assert !AllWhole(r.frames);
  }

  /** Every licensed step keeps the protocol invariant. */
  lemma StepSound(w: World, a: Action)
    requires Inv(w) && Licensed(w, a) && Apply(w, a).Some?
    ensures Inv(Apply(w, a).value) && Grows(w, Apply(w, a).value)
  {
    match a
    case OnIntent(id, step) => RowStepSound(id, w.intents[id], w.now, step);
    case _ =>
  }

  lemma GrowsTransitive(u: World, v: World, w: World)
    requires Grows(u, v) && Grows(v, w)
    ensures Grows(u, w)
  {
    forall id | id in u.intents ensures id in w.intents && Later(u.intents[id], w.intents[id]) {
      LaterTransitive(u.intents[id], v.intents[id], w.intents[id]);
    }
  }

  lemma LaterTransitive(r: Intent, s: Intent, t: Intent)
    requires Later(r, s) && Later(s, t)
    ensures Later(r, t)
  {
    assert t.frames[..|r.frames|] == t.frames[..|s.frames|][..|r.frames|];
  }

  // ---- whole runs ----

  const START := World(map[], 0)

  function Run(start: World, trace: seq<Action>): Option<World>
    decreases |trace|
  {
    if trace == [] then Some(start) else
      var before := Run(start, trace[..|trace| - 1]);
      if before.None? then None else Apply(before.value, trace[|trace| - 1])
  }

  predicate Disciplined(start: World, trace: seq<Action>) {
    forall i | 0 <= i < |trace| ::
      Run(start, trace[..i]).Some? && Licensed(Run(start, trace[..i]).value, trace[i])
  }

  lemma DisciplinedPrefix(start: World, trace: seq<Action>, n: nat)
    requires Disciplined(start, trace) && n <= |trace|
    ensures Disciplined(start, trace[..n])
  {
    forall i | 0 <= i < n
      ensures Run(start, trace[..n][..i]).Some? && Licensed(Run(start, trace[..n][..i]).value, trace[..n][i])
    {
      assert trace[..n][..i] == trace[..i];
    }
  }

  lemma {:induction false} RunSound(start: World, trace: seq<Action>)
    requires Inv(start) && Disciplined(start, trace) && Run(start, trace).Some?
    ensures Inv(Run(start, trace).value) && Grows(start, Run(start, trace).value)
    decreases |trace|
  {
    if trace != [] {
      var n := |trace| - 1;
      DisciplinedPrefix(start, trace, n);
      RunSound(start, trace[..n]);
      var w := Run(start, trace[..n]).value;
      StepSound(w, trace[n]);
      GrowsTransitive(start, w, Run(start, trace).value);
    } else {
      forall id | id in start.intents ensures Later(start.intents[id], start.intents[id]) {}
    }
  }

  /** A disciplined run from the empty world that ends in w. */
  ghost predicate Ran(history: seq<Action>, w: World) {
    Disciplined(START, history) && Run(START, history) == Some(w)
  }

  lemma RanStep(history: seq<Action>, w: World, a: Action)
    requires Ran(history, w) && Licensed(w, a) && Apply(w, a).Some?
    ensures Ran(history + [a], Apply(w, a).value)
  {
    var next := history + [a];
    assert next[..|next| - 1] == history;
    forall i | 0 <= i < |next| ensures Run(START, next[..i]).Some? && Licensed(Run(START, next[..i]).value, next[i]) {
      assert i < |history| ==> next[..i] == history[..i];
    }
  }

  lemma RanIsSound(history: seq<Action>, w: World, id: IntentId)
    requires Ran(history, w) && id in w.intents
    ensures Inv(w) && IntentOk(id, w.intents[id], w.now)
  {
    RunSound(START, history);
  }

  /** In every run, and in every run that goes on from there: a settled intent keeps its frames and reason;
      where the reason decides, the target has taken it up, then and ever after, exactly when it is not
      recorded as not delivered; a rejected create, submit or run is taken up, then or later, only if a reply
      to one of its frames was broken or missing; all frames of one intent are the same frame, each sent only
      after a passed expiry check. */
  lemma DeliveryIsTruthful(trace: seq<Action>, w: World, more: seq<Action>, id: IntentId)
    requires Ran(trace, w) && id in w.intents && Disciplined(w, more) && Run(w, more).Some?
    ensures var v := Run(w, more).value; var r := w.intents[id];
            && id in v.intents
            && (Settled(r.state) ==> SettledAlike(r, v.intents[id]))
            && (Settled(r.state) && Decides(r.operation, r.basis) ==> (r.taken <==> !r.state.NotDelivered?))
            && (Settled(r.state) && Decides(r.operation, r.basis) ==> v.intents[id].taken == r.taken)
            && (r.basis.Refused? && Creates(r.operation) && v.intents[id].taken ==> !AllWhole(r.frames))
            && (r.basis.Withheld? ==> v.intents[id].frames == [])
            && (forall i, j | 0 <= i < |r.frames| && 0 <= j < |r.frames| :: r.frames[i].frame == r.frames[j].frame)
            && (forall i | 0 <= i < |r.frames| :: r.frames[i].checked < r.expiry)
  {
    RanIsSound(trace, w, id);
    RunSound(w, more);
    var r := w.intents[id];
    forall i | 0 <= i < |r.frames| ensures r.frames[i].frame == FrameOf(id, r) && r.frames[i].checked < r.expiry {
      assert FrameOk(id, r, r.frames[i], w.now);
    }
    assert Later(r, Run(w, more).value.intents[id]);
  }

  // ---- the order of submits ----

  /** The intent was claimed, or frames of it left. */
  predicate Underway(r: Intent) {
    r.state.Dispatching? || r.state.Uncertain? || r.state.Accepted? || r.state.Reconciled? || r.frames != []
  }

  predicate InOrder(w: World) {
    forall i, j | i in w.intents && j in w.intents && Precedes(w.intents[i], w.intents[j]) && Underway(w.intents[j]) ::
      OutOfTheWay(w.intents[i])
  }

  /** What one step does to the intents: they stay, at most one starts, and a new one comes last. */
  lemma StartsOne(w: World, a: Action, j: IntentId)
    requires Inv(w) && Licensed(w, a) && Apply(w, a).Some? && j in Apply(w, a).value.intents
    ensures j !in w.intents ==> IsNext(w, Apply(w, a).value.intents[j]) && !Underway(Apply(w, a).value.intents[j])
    ensures j in w.intents && Underway(Apply(w, a).value.intents[j]) && !Underway(w.intents[j]) ==>
              MayClaim(w, w.intents[j])
  {
    if j in w.intents {
      assert IntentOk(j, w.intents[j], w.now);
    }
  }

  lemma OrderKept(w: World, a: Action)
    requires Inv(w) && InOrder(w) && Licensed(w, a) && Apply(w, a).Some?
    ensures InOrder(Apply(w, a).value)
  {
    var v := Apply(w, a).value;
    StepSound(w, a);
    forall i, j | i in v.intents && j in v.intents && Precedes(v.intents[i], v.intents[j]) && Underway(v.intents[j])
      ensures OutOfTheWay(v.intents[i])
    {
      StartsOne(w, a, j);
      StartsOne(w, a, i);
      assert Later(w.intents[j], v.intents[j]);
      assert i in w.intents;
      assert Later(w.intents[i], v.intents[i]);
    }
  }

  /** In every run, a frame of a submit leaves only after every earlier submit of its session was reconciled
      or recorded as not delivered. */
  lemma SubmitsAreSentInOrder(trace: seq<Action>, w: World)
    requires Ran(trace, w)
    ensures forall i, j | i in w.intents && j in w.intents && Precedes(w.intents[i], w.intents[j])
            && w.intents[j].frames != [] ::
              OutOfTheWay(w.intents[i])
  {
    OrderedRun(trace, w);
  }

  lemma {:induction false} OrderedRun(trace: seq<Action>, w: World)
    requires Ran(trace, w)
    ensures InOrder(w)
    decreases |trace|
  {
    if trace != [] {
      var n := |trace| - 1;
      DisciplinedPrefix(START, trace, n);
      var u := Run(START, trace[..n]).value;
      OrderedRun(trace[..n], u);
      RunSound(START, trace[..n]);
      OrderKept(u, trace[n]);
    }
  }

  // ---- which reasons decide ----

  ghost predicate Shows(trace: seq<Action>, w: World, op: Operation, state: DeliveryState, basis: Basis,
                        taken: bool, whole: bool)
  {
    && Ran(trace, w) && 0 in w.intents
    && var r := w.intents[0];
       r.operation == op && r.state == state && r.basis == basis && r.taken == taken && AllWhole(r.frames) == whole
  }

  /** Some run records such an intent and settles it so, with the target having taken it up or not, and with
      all its replies whole or not. */
  ghost predicate Reaches(op: Operation, state: DeliveryState, basis: Basis, taken: bool, whole: bool) {
    exists trace, w :: Shows(trace, w, op, state, basis, taken, whole)
  }

  /** Records an intent of this operation, claims it, and sends its frame. */
  lemma SentRun(op: Operation, expiry: int, checked: int, at: int, applied: bool, reply: Reply)
    returns (trace: seq<Action>, w: World)
    requires 0 <= checked < expiry && checked <= at
    ensures Ran(trace, w) && w.now == at && 0 in w.intents && AllWhole(w.intents[0].frames) == reply.Whole?
    ensures var r := NewIntent(op, 0, 0, 0, 0, expiry);
            w.intents[0] == r.(state := Dispatching, taken := applied,
                frames := [Sent(FrameOf(0, r), checked, at, reply)])
  {
    var frame := Frame(0, op, 0, 0);
    trace, w := ClaimedRun(op, expiry);
    trace, w := Take(trace, w, Tick(at));
    trace, w := Take(trace, w, OnIntent(0, Send(frame, checked, applied, reply)));
    assert w.intents[0].frames[0].reply == reply;
  }

  lemma ClaimedRun(op: Operation, expiry: int) returns (trace: seq<Action>, w: World)
    ensures Ran(trace, w) && w.now == 0 && 0 in w.intents
    ensures w.intents[0] == NewIntent(op, 0, 0, 0, 0, expiry).(state := Dispatching)
  {
    trace, w := RecordedRun(op, expiry);
    trace, w := Take(trace, w, OnIntent(0, Claim));
  }

  lemma RecordedRun(op: Operation, expiry: int) returns (trace: seq<Action>, w: World)
    ensures Ran(trace, w) && w.now == 0 && 0 in w.intents && w.intents[0] == NewIntent(op, 0, 0, 0, 0, expiry)
    ensures trace == [Record(0, op, 0, 0, 0, expiry)]
  {
    RanStep([], START, Record(0, op, 0, 0, 0, expiry));
    trace, w := [] + [Record(0, op, 0, 0, 0, expiry)], Apply(START, Record(0, op, 0, 0, 0, expiry)).value;
  }

  lemma Take(trace: seq<Action>, w: World, a: Action) returns (next: seq<Action>, v: World)
    requires Ran(trace, w) && Licensed(w, a) && Apply(w, a).Some?
    ensures Ran(next, v) && Apply(w, a) == Some(v) && next == trace + [a]
  {
    RanStep(trace, w, a);
    next, v := trace + [a], Apply(w, a).value;
  }

  /** The reply of a single frame that makes all replies whole or not. */
  function ReplyFor(whole: bool): Reply {
    if whole then Whole else Broken
  }

  lemma WithheldRun(op: Operation)
    ensures Reaches(op, NotDelivered, Withheld, false, true)
  {
    var trace, w := RecordedRun(op, 1);
    trace, w := Take(trace, w, OnIntent(0, Mark(NotDelivered, Withheld)));
    assert Shows(trace, w, op, NotDelivered, Withheld, false, true);
  }

  lemma RefusedRun(op: Operation, taken: bool, whole: bool) returns (trace: seq<Action>, w: World)
    requires Agrees(op, Refused, taken, whole)
    ensures Shows(trace, w, op, NotDelivered, Refused, taken, whole)
  {
    trace, w := SentRun(op, 1, 0, 0, taken, ReplyFor(whole));
    trace, w := Take(trace, w, OnIntent(0, Mark(NotDelivered, Refused)));
  }

  lemma AcceptedRun(op: Operation, basis: Basis, taken: bool, whole: bool) returns (trace: seq<Action>, w: World)
    requires Rests(op, Accepted, basis) && Agrees(op, basis, taken, whole)
    ensures Shows(trace, w, op, Accepted, basis, taken, whole)
  {
    trace, w := SentRun(op, 1, 0, 0, taken, ReplyFor(whole));
    trace, w := Take(trace, w, OnIntent(0, Mark(Accepted, basis)));
  }

  lemma ReconciledRun(op: Operation, basis: Basis, taken: bool, whole: bool)
    requires Rests(op, Reconciled, basis) && !basis.Abandoned? && Agrees(op, basis, taken, whole)
    ensures Reaches(op, Reconciled, basis, taken, whole)
  {
    var trace, w := AcceptedRun(op, basis, taken, whole);
    trace, w := Take(trace, w, OnIntent(0, Mark(Reconciled, Undecided)));
    assert Shows(trace, w, op, Reconciled, basis, taken, whole);
  }

  lemma AbandonedRun(taken: bool, whole: bool)
    ensures Reaches(RunJob, Reconciled, Abandoned, taken, whole)
  {
    var trace, w := SentRun(RunJob, 1, 0, 0, taken, ReplyFor(whole));
    trace, w := Take(trace, w, OnIntent(0, Mark(Uncertain, Undecided)));
    trace, w := Take(trace, w, OnIntent(0, Mark(Reconciled, Abandoned)));
    assert Shows(trace, w, RunJob, Reconciled, Abandoned, taken, whole);
  }

  /** Exactly the settled rows that runs can end in. */
  lemma SettledRows(op: Operation, state: DeliveryState, basis: Basis, taken: bool, whole: bool)
    requires Settled(state)
    ensures Reaches(op, state, basis, taken, whole) <==> Rests(op, state, basis) && Agrees(op, basis, taken, whole)
  {
    if Reaches(op, state, basis, taken, whole) {
      ReachedIsOk(op, state, basis, taken, whole);
    } else if Rests(op, state, basis) && Agrees(op, basis, taken, whole) {
      match basis {
        case Withheld => WithheldRun(op);
        case Refused =>
          var _, _ := RefusedRun(op, taken, whole);
        case Abandoned => AbandonedRun(taken, whole);
        case _ =>
          if state.Accepted? {
            var _, _ := AcceptedRun(op, basis, taken, whole);
          } else {
            ReconciledRun(op, basis, taken, whole);
          }
      }
    }
  }

  lemma ReachedIsOk(op: Operation, state: DeliveryState, basis: Basis, taken: bool, whole: bool)
    requires Reaches(op, state, basis, taken, whole) && Settled(state)
    ensures Rests(op, state, basis) && Agrees(op, basis, taken, whole)
  {
    var trace, w :| Shows(trace, w, op, state, basis, taken, whole);
    RanIsSound(trace, w, 0);
  }

  /** Some run ends in such a row, whatever its replies were. */
  ghost predicate Possible(op: Operation, state: DeliveryState, basis: Basis, taken: bool) {
    Reaches(op, state, basis, taken, true) || Reaches(op, state, basis, taken, false)
  }

  /** Over all runs, the operation and the stored reason leave open whether the target took a settled intent
      up exactly for every rejection, for a cancel or close settled by a reading, and for an abandoned run. */
  lemma ReasonDecides(op: Operation, state: DeliveryState, basis: Basis)
    requires Settled(state) && Rests(op, state, basis)
    ensures Possible(op, state, basis, true) && Possible(op, state, basis, false) <==>
              basis.Refused? || (!Creates(op) && basis.ByReading?) || basis.Abandoned?
    ensures Decides(op, basis) ==>
              (forall taken :: Possible(op, state, basis, taken) <==> taken == !state.NotDelivered?)
  {
    SettledRows(op, state, basis, true, true);
    SettledRows(op, state, basis, true, false);
    SettledRows(op, state, basis, false, true);
    SettledRows(op, state, basis, false, false);
  }

  /** Where every reply came whole, the reason leaves it open exactly for a cancel or close settled by a
      rejection or a reading, and for an abandoned run. */
  lemma WholeRepliesDecide(op: Operation, state: DeliveryState, basis: Basis)
    requires Settled(state) && Rests(op, state, basis)
    ensures Reaches(op, state, basis, true, true) && Reaches(op, state, basis, false, true) <==>
              (!Creates(op) && (basis.Refused? || basis.ByReading?)) || basis.Abandoned?
  {
    SettledRows(op, state, basis, true, true);
    SettledRows(op, state, basis, false, true);
  }

  /** A crash between the claim and the call, then a read that finds the command: the cancel is accepted
      although nothing was ever sent. */
  lemma AcceptedButNeverSent() returns (trace: seq<Action>, w: World)
    ensures trace == [Record(0, CancelCommand, 0, 0, 0, 1), OnIntent(0, Claim), OnIntent(0, Mark(Accepted, ByReading))]
    ensures Ran(trace, w) && 0 in w.intents
    ensures w.intents[0].state.Accepted? && !w.intents[0].taken && w.intents[0].frames == []
  {
    trace, w := RecordedRun(CancelCommand, 1);
    trace, w := Take(trace, w, OnIntent(0, Claim));
    trace, w := Take(trace, w, OnIntent(0, Mark(Accepted, ByReading)));
  }

  /** An intent that was taken up is recorded as not delivered: for every operation after a broken reply, and
      for a cancel or close also after a whole one, when the target took effect and then failed. */
  lemma NotDeliveredButTaken(op: Operation, whole: bool) returns (trace: seq<Action>, w: World)
    requires Creates(op) ==> !whole
    ensures Shows(trace, w, op, NotDelivered, Refused, true, whole)
  {
    trace, w := RefusedRun(op, true, whole);
  }

  /** A frame lands after its intent was given up: the first frame had no reply, the same frame was sent
      again and rejected, and the target then took the first one up. */
  lemma TakenAfterRefusal(op: Operation) returns (trace: seq<Action>, w: World, more: seq<Action>, v: World)
    ensures Shows(trace, w, op, NotDelivered, Refused, false, false)
    ensures more == trace + [OnIntent(0, Land(0))] && Shows(more, v, op, NotDelivered, Refused, true, false)
  {
    trace, w := SentRun(op, 1, 0, 0, false, Missing);
    trace, w := Take(trace, w, OnIntent(0, Send(Frame(0, op, 0, 0), 0, false, Whole)));
    trace, w := Take(trace, w, OnIntent(0, Mark(NotDelivered, Refused)));
    assert w.intents[0].frames[0].reply.Missing?;
    more, v := Take(trace, w, OnIntent(0, Land(0)));
  }

  // ---- frames at or after the expiry ----

  predicate Late(s: Sent, expiry: int) {
    s.at >= expiry
  }

  /** Frame k of intent id passed its check at `checked`, against `expiry`, and left at most d later. */
  ghost predicate SentWithin(trace: seq<Action>, w: World, id: IntentId, k: nat, checked: int, expiry: int, d: int) {
    && Ran(trace, w) && id in w.intents && w.intents[id].expiry == expiry && k < |w.intents[id].frames|
    && w.intents[id].frames[k].checked == checked && w.intents[id].frames[k].at - checked <= d
  }

  /** No run sends a late frame with this check and a delay of at most d. */
  ghost predicate AlwaysOnTime(checked: int, expiry: int, d: int) {
    forall trace, w, id, k: nat | SentWithin(trace, w, id, k, checked, expiry, d) ::
        !Late(w.intents[id].frames[k], expiry)
  }

  /** Before sending, a caller that bounds the delay by d knows that the frame is on time exactly when the
      check left a margin of more than d. */
  lemma OnTimeIffMargin(checked: int, expiry: int, d: int)
    requires 0 <= checked < expiry
    ensures AlwaysOnTime(checked, expiry, d) <==> checked + d < expiry
  {
    if checked + d >= expiry {
      var trace, w := SentRun(CreateSession, expiry, checked, expiry, true, Whole);
      assert SentWithin(trace, w, 0, 0, checked, expiry, d);
      assert Late(w.intents[0].frames[0], expiry);
    }
  }

  /** The check and the sending are two clock readings, so a late frame is possible. */
  lemma LateFrameIsPossible() returns (trace: seq<Action>, w: World)
    ensures Ran(trace, w) && 0 in w.intents && |w.intents[0].frames| == 1
    ensures Late(w.intents[0].frames[0], w.intents[0].expiry)
  {
    trace, w := SentRun(CreateSession, 1, 0, 1, true, Whole);
  }
}
