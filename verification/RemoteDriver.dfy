/** The remote driver: guards, dispatch, reconciliation and same-key retry over the delivery protocol.
    Driver operations run one at a time; a crash may end one after any step. */
module RemoteDriver {
  import opened Common
  import opened Delivery

  /** How long an intent may stay in doubt before the driver stops asking the target about it. */
  const UNCERTAINTY_WINDOW := 24 * 60 * 60

  /** How a mutation call ended for the driver.  The bridge reports a broken reply as a rejection. */
  datatype Answer = BeforeSend | TransportLost | Malformed | Rejected | Result

  /** How a read of the target's resource ended. */
  datatype Reading = Found | NotFound | NoReading

  datatype Readiness = Ready | NotReady | CreateFailed

  predicate SessionResource(op: Operation) {
    op.CreateSession? || op.CloseSession?
  }

  /** The local intent of this operation for the resource of r. */
  predicate Concerns(r: Intent, op: Operation, other: Intent) {
    other.operation == op && (if SessionResource(op) then other.session == r.session else other.command == r.command)
  }

  /** The delivery state says what the answer proved. */
  predicate Reflects(r: Intent, answer: Answer) {
    match answer
    case BeforeSend => r.state.NotDelivered? && r.basis.Withheld? && r.frames == []
    case Rejected => r.state.NotDelivered? && r.basis.Refused?
        && Agrees(r.operation, Refused, r.taken, AllWhole(r.frames))
    case Result => r.taken && ((r.state.Accepted? && r.basis.ByAnswer?) || r.state.Uncertain?)
    case _ => r.state.Uncertain?
  }

  /** What an answer proves of a row whose first frame may just have been sent. */
  predicate Proves(r: Intent, answer: Answer) {
    match answer
    case BeforeSend => r.frames == []
    case Rejected => r.frames != [] && Agrees(r.operation, Refused, r.taken, AllWhole(r.frames))
    case Result => r.taken
    case _ => true
  }

  class Driver {
    var w: World
    ghost var history: seq<Action>

    /** The driver's past is a disciplined run that led to the present world. */
    ghost predicate Valid()
      reads this
    {
      Inv(w) && Ran(history, w)
    }

    constructor ()
      ensures Valid() && w == START
    {
      w := START;
      history := [];
    }

    /** Records one step that was taken. */
    method Take(a: Action)
      requires Valid() && Licensed(w, a) && Apply(w, a).Some?
      modifies this
      ensures Valid() && Apply(old(w), a) == Some(w) && Grows(old(w), w)
    {
      RanStep(history, w, a);
      StepSound(w, a);
      w := Apply(w, a).value;
      history := history + [a];
    }

    /** One store transition; a store failure leaves everything as it was. */
    method Store(id: IntentId, step: Step, healthy: bool) returns (ok: bool)
      requires Valid() && id in w.intents && RowLicence(id, w.intents[id], w.now, step) && !step.Send?
      modifies this
      ensures Valid() && Grows(old(w), w) && id in w.intents
      ensures ok ==> RowStep(old(w).intents[id], old(w).now, step).Some?
                     && w == old(w).(intents :=
                               old(w).intents[id := RowStep(old(w).intents[id], old(w).now, step).value])
      ensures !ok ==> w == old(w)
      ensures healthy && Apply(old(w), OnIntent(id, step)).Some? ==> ok
    {
      GrowsRefl(w);
      ok := *;
      ok := Apply(w, OnIntent(id, step)).Some? && (ok || healthy);
      if ok {
        Take(OnIntent(id, step));
      }
    }

    /** The clock moves on, a frame without a reply lands, or nothing happens. */
    method Happen()
      requires Valid()
      modifies this
      ensures Valid() && Grows(old(w), w) && Quiet(old(w), w)
    {
      GrowsRefl(w);
      QuietRefl(w);
      var later: int := *;
      var id: IntentId := *;
      var k: int := *;
      if later >= w.now {
        Take(Tick(later));
      } else if id in w.intents && 0 <= k < |w.intents[id].frames| && w.intents[id].frames[k].reply.Missing? {
        Take(OnIntent(id, Land(k)));
      }
    }

    /** Time passes before the next step of the driver. */
    method Elapse()
      requires Valid()
      modifies this
      ensures Valid() && Grows(old(w), w) && Quiet(old(w), w)
    {
      GrowsRefl(w);
      QuietRefl(w);
      var events: nat := *;
      while events > 0
        invariant Valid() && Grows(old(w), w) && Quiet(old(w), w)
      {
        ghost var before := w;
        Happen();
        QuietTransitive(old(w), before, w);
        GrowsTransitive(old(w), before, w);
        events := events - 1;
      }
    }

    /** One mutation call.  A frame that cannot be encoded is not sent, and is reported like a lost one;
        otherwise the frame leaves after time has passed, reaches the target at once, later or never,
        and its reply comes back whole, broken or not at all.  A whole reply is the result of an intent the
        target has taken up, or a rejection.  A create, submit or run that was taken up is rejected only if an
        earlier frame got in between; a cancel or close also if its handler fails after it was taken up. */
    method Call(id: IntentId, checked: int) returns (answer: Answer)
      requires Valid() && id in w.intents && (w.intents[id].state.Dispatching? || w.intents[id].state.Uncertain?)
      requires checked < w.intents[id].expiry && checked <= w.now
      modifies this
      ensures Valid() && Grows(old(w), w) && id in w.intents && w.intents[id].state == old(w).intents[id].state
      ensures if |w.intents[id].frames| == |old(w).intents[id].frames|
              then (answer.BeforeSend? || answer.TransportLost?) && Quiet(old(w), w)
              else !answer.BeforeSend? && IsSent(id, old(w).intents[id], w.intents[id], checked, w.now)
      ensures !answer.BeforeSend? || old(w).intents[id].frames == [] ==> Proves(w.intents[id], answer)
    {
      Elapse();
      ghost var quiet := w;
      var sends: bool := *;
      if !sends {
        var encoded: bool := *;
        return if encoded then BeforeSend else TransportLost;
      }
      var applied: bool := *;
      var reply: Reply := *;
      Take(OnIntent(id, Send(FrameOf(id, w.intents[id]), checked, applied, reply)));
      GrowsTransitive(old(w), quiet, w);
      var r := w.intents[id];
      assert r.frames[|quiet.intents[id].frames|].reply == reply;
      var rejected: bool := *;
      match reply {
        case Missing => answer := TransportLost;
        case Broken => answer := if rejected then Rejected else Malformed;
        case Whole =>
          var mayFail := !Creates(r.operation) || !AllWhole(r.frames);
          answer := if !r.taken || (rejected && mayFail) then Rejected else Result;
      }
    }

    /** A read of the resource.  For cancel and close it only says whether the controlled resource exists. */
    method ReadTarget(id: IntentId) returns (reading: Reading)
      requires Valid() && id in w.intents
      modifies this
      ensures Valid() && Grows(old(w), w) && Quiet(old(w), w) && id in w.intents
      ensures Creates(w.intents[id].operation) && reading.Found? ==> w.intents[id].taken
      ensures Creates(w.intents[id].operation) && reading.NotFound? && w.now < w.intents[id].expiry ==>
                !w.intents[id].taken
    {
      Elapse();
      var silent: bool := *;
      var present: bool := *;
      if silent {
        return NoReading;
      }
      var r := w.intents[id];
      if Creates(r.operation) {
        present := r.taken && (present || w.now < r.expiry);
      }
      reading := if present then Found else NotFound;
    }

    /** retryRemoteIntent: the same frame again, only inside the idempotency window.  A result whose content
        cannot be used changes nothing. */
    method Retry(id: IntentId, checked: int, healthy: bool) returns (answer: Answer)
      requires Valid() && id in w.intents && (w.intents[id].state.Dispatching? || w.intents[id].state.Uncertain?)
      requires checked < w.intents[id].expiry && checked <= w.now
      modifies this
      ensures Valid() && Grows(old(w), w) && id in w.intents
      ensures healthy && answer.Result? ==>
                w.intents[id].state.Accepted? && w.intents[id].basis.ByAnswer? && w.intents[id].taken
      ensures healthy && answer.Rejected? ==> Reflects(w.intents[id], Rejected)
      ensures !answer.Result? && !answer.Rejected? ==> w.intents[id].state == old(w).intents[id].state
    {
      answer := Call(id, checked);
      var unusable: bool := *;
      if answer.Result? && unusable {
        return Malformed;
      }
      if answer.Rejected? || answer.Result? {
        ghost var mid := w;
        RecordRetry(id, answer, healthy);
        GrowsTransitive(old(w), mid, w);
      }
    }

    /** The transition after a retry that was answered. */
    method RecordRetry(id: IntentId, answer: Answer, healthy: bool)
      requires Valid() && id in w.intents && (w.intents[id].state.Dispatching? || w.intents[id].state.Uncertain?)
      requires Proves(w.intents[id], answer) && (answer.Rejected? || answer.Result?)
      modifies this
      ensures Valid() && Grows(old(w), w) && id in w.intents
      ensures healthy && answer.Result? ==>
                w.intents[id].state.Accepted? && w.intents[id].basis.ByAnswer? && w.intents[id].taken
      ensures healthy && answer.Rejected? ==> Reflects(w.intents[id], Rejected)
    {
      var _ := Store(id, if answer.Result? then Mark(Accepted, ByAnswer) else Mark(NotDelivered, Refused), healthy);
    }

    /** The transition after a reading that found the resource. */
    method RecordFound(id: IntentId, healthy: bool)
      requires Valid() && id in w.intents && (w.intents[id].state.Dispatching? || w.intents[id].state.Uncertain?)
      requires Creates(w.intents[id].operation) ==> w.intents[id].taken
      modifies this
      ensures Valid() && Grows(old(w), w) && id in w.intents && w.intents[id].frames == old(w).intents[id].frames
      ensures healthy ==> w.intents[id].state.Accepted? && w.intents[id].basis.ByReading?
    {
      var _ := Store(id, Mark(Accepted, ByReading), healthy);
    }

    /** ReconcileIntent.  Nothing is asked once the uncertainty window has closed, and nothing is sent where
        the resource was found or the idempotency guarantee has ended. */
    method ReconcileIntent(id: IntentId, healthy: bool) returns (reading: Reading)
      requires Valid()
      modifies this
      ensures Valid() && Grows(old(w), w)
      ensures reading.NoReading? ==> Quiet(old(w), w)
      ensures id in old(w).intents && old(w).now >= old(w).intents[id].since + UNCERTAINTY_WINDOW ==> reading.NoReading?
      ensures healthy && reading.Found? ==>
                id in w.intents && w.intents[id].state.Accepted? && w.intents[id].basis.ByReading?
      ensures reading.Found? ==>
                id in old(w).intents && id in w.intents && w.intents[id].frames == old(w).intents[id].frames
      ensures reading.Found? && Creates(w.intents[id].operation) ==> w.intents[id].taken
      ensures reading.NotFound? && id in old(w).intents && old(w).now >= old(w).intents[id].expiry ==> Quiet(old(w), w)
    {
      reading := NoReading;
      GrowsRefl(w);
      QuietRefl(w);
      if id !in w.intents || !(w.intents[id].state.Dispatching? || w.intents[id].state.Uncertain?) {
        return;
      }
      if w.now >= w.intents[id].since + UNCERTAINTY_WINDOW {
        return;
      }
      reading := ReadTarget(id);
      ghost var mid := w;
      if reading.Found? {
        RecordFound(id, healthy);
      } else if reading.NotFound? {
        if w.now < w.intents[id].expiry {
          var _ := Retry(id, w.now, healthy);
        }
      }
      GrowsTransitive(old(w), mid, w);
    }

    // ---- settlement by later evidence ----

    /** The acceptance in reconcileIntentAfterRemoteGap: a strict read of the command showed that the target
        has it, so an uncertain submit was carried out. */
    method AcceptAfterGap(id: IntentId) returns (ok: bool)
      requires Valid() && id in w.intents && w.intents[id].operation.SubmitCommand? && w.intents[id].taken
      requires w.intents[id].state.Uncertain?
      modifies this
      ensures Valid() && Grows(old(w), w) && id in w.intents
      ensures if ok then w.intents[id].state.Accepted? && w.intents[id].basis.ByReading? else w == old(w)
    {
      ok := Store(id, Mark(Accepted, ByReading), false);
    }

    /** The delivery part of MarkRemoteIntentTerminalProof. */
    method Reconcile(id: IntentId) returns (ok: bool)
      requires Valid() && id in w.intents && (w.intents[id].operation.SubmitCommand? || w.intents[id].operation.RunJob?)
      modifies this
      ensures Valid() && Grows(old(w), w) && id in w.intents
      ensures ok ==>
                (old(w).intents[id].state.Accepted? || old(w).intents[id].state.Reconciled?)
                && w.intents[id].state.Reconciled?
      ensures !ok ==> w == old(w)
    {
      GrowsRefl(w);
      if !(w.intents[id].state.Accepted? || w.intents[id].state.Reconciled?) {
        return false;
      }
      ok := Store(id, Mark(Reconciled, Undecided), false);
    }

    /** The owner abandons an uncertain run; what the target did with it stays open. */
    method Abandon(id: IntentId) returns (ok: bool)
      requires Valid() && id in w.intents
      modifies this
      ensures Valid() && Grows(old(w), w) && id in w.intents
      ensures ok ==>
                old(w).intents[id].state.Uncertain? && w.intents[id].state.Reconciled? && w.intents[id].basis.Abandoned?
      ensures !ok ==> w == old(w)
    {
      GrowsRefl(w);
      if !w.intents[id].operation.RunJob? || !w.intents[id].state.Uncertain? {
        return false;
      }
      ok := Store(id, Mark(Reconciled, Abandoned), false);
    }

    // ---- guards before delivery ----

    /** GetLocalIntentByResource. */
    method Find(op: Operation, r: Intent) returns (found: Option<IntentId>)
      ensures found.Some? ==> found.value in w.intents && Concerns(r, op, w.intents[found.value])
      ensures found.None? ==> forall i | i in w.intents :: !Concerns(r, op, w.intents[i])
    {
      if i :| i in w.intents && Concerns(r, op, w.intents[i]) {
        found := Some(i);
      } else {
        found := None;
      }
    }

    /** A recorded intent was never sent, so it may be marked as not delivered. */
    method MarkNotDelivered(id: IntentId, healthy: bool) returns (ok: bool)
      requires Valid() && id in w.intents && w.intents[id].state.Recorded?
      modifies this
      ensures Valid() && Grows(old(w), w) && OnlyMarks(old(w), w) && id in w.intents
      ensures healthy ==> ok
      ensures w ==
              if ok then old(w).(intents := old(w).intents[id := GivenUp(old(w).intents[id], old(w).now)]) else old(w)
    {
      assert IntentOk(id, w.intents[id], w.now);
      ok := Store(id, Mark(NotDelivered, Withheld), healthy);
    }

    /** A recorded predecessor has never crossed the bridge: it and its control are both not delivered. */
    method MarkBoth(first: IntentId, id: IntentId, healthy: bool)
      requires Valid() && first in w.intents && id in w.intents && first != id
      requires w.intents[first].state.Recorded? && w.intents[id].state.Recorded?
      modifies this
      ensures Valid() && Grows(old(w), w) && OnlyMarks(old(w), w)
      ensures w.intents[id].state.NotDelivered? ==> w.intents[first].state.NotDelivered?
      ensures healthy ==> w.intents[id].state.NotDelivered?
      ensures forall i | i in old(w).intents && i != first && i != id :: w.intents[i] == old(w).intents[i]
    {
      var ok := MarkNotDelivered(first, healthy);
      if ok {
        ghost var mid := w;
        var _ := MarkNotDelivered(id, healthy);
        GrowsTransitive(old(w), mid, w);
      }
    }

    /** The two controls that stop a recorded submit: its own cancel, or the close of its session. */
    method SubmitIsControlled(r: Intent) returns (controlled: bool)
      requires r.operation.SubmitCommand?
      ensures !controlled ==> forall i | i in w.intents && Concerns(r, CloseSession, w.intents[i]) && Lone(w, i) ::
                w.intents[i].state.NotDelivered?
    {
      var cancel := Find(CancelCommand, r);
      if cancel.Some? && !w.intents[cancel.value].state.NotDelivered? {
        return true;
      }
      var close := Find(CloseSession, r);
      controlled := close.Some? && !w.intents[close.value].state.NotDelivered?;
    }

    /** guardRemoteIntentBeforeDelivery; true means that nothing is to be sent. */
    method Guard(id: IntentId, healthy: bool) returns (stop: bool)
      requires Valid() && id in w.intents
      modifies this
      ensures Valid() && Grows(old(w), w) && OnlyMarks(old(w), w)
      ensures !stop ==> w == old(w)
      ensures stop && healthy ==> w.intents[id].state.NotDelivered?
      ensures forall x | Unsent(old(w), x) :: Unsent(w, x)
      ensures Unsent(old(w), old(w).intents[id].session) && !stop ==>
                w.intents[id].state.NotDelivered?
                    || (w.intents[id].operation.SubmitCommand? && CreateIsDead(w, w.intents[id].session))
    {
      GrowsRefl(w);
      OnlyMarksRefl(w);
      var r := w.intents[id];
      if !r.state.Recorded? {
        return false;
      }
      match r.operation {
        case CreateSession =>
          var close := Find(CloseSession, r);
          stop := close.Some? && !w.intents[close.value].state.NotDelivered?;
          if stop {
            var _ := MarkNotDelivered(id, healthy);
            MarkedOther(old(w), w);
          }
        case SubmitCommand =>
          stop := SubmitIsControlled(r);
          if stop {
            var _ := MarkNotDelivered(id, healthy);
            MarkedOther(old(w), w);
          }
        case CancelCommand => stop := GuardCancel(id, healthy);
        case CloseSession => stop := GuardClose(id, healthy);
        case RunJob => stop := false;
      }
    }

    method GuardCancel(id: IntentId, healthy: bool) returns (stop: bool)
      requires Valid() && id in w.intents && w.intents[id].state.Recorded? && w.intents[id].operation.CancelCommand?
      modifies this
      ensures Valid() && Grows(old(w), w) && OnlyMarks(old(w), w)
      ensures !stop ==> w == old(w)
      ensures stop && healthy ==> w.intents[id].state.NotDelivered?
      ensures forall x | Unsent(old(w), x) :: Unsent(w, x)
      ensures Unsent(old(w), old(w).intents[id].session) ==> stop
    {
      GrowsRefl(w);
      OnlyMarksRefl(w);
      var submit := Find(SubmitCommand, w.intents[id]);
      if submit.None? || w.intents[submit.value].state.NotDelivered? {
        stop := true;
        var _ := MarkNotDelivered(id, healthy);
        MarkedOther(old(w), w);
      } else if w.intents[submit.value].state.Recorded? {
        stop := true;
        MarkBoth(submit.value, id, healthy);
        MarkedOther(old(w), w);
      } else {
        stop := false;
      }
    }

    method GuardClose(id: IntentId, healthy: bool) returns (stop: bool)
      requires Valid() && id in w.intents && w.intents[id].state.Recorded? && w.intents[id].operation.CloseSession?
      modifies this
      ensures Valid() && Grows(old(w), w) && OnlyMarks(old(w), w)
      ensures !stop ==> w == old(w)
      ensures stop && healthy ==> w.intents[id].state.NotDelivered?
      ensures forall x | Unsent(old(w), x) :: Unsent(w, x)
      ensures Unsent(old(w), old(w).intents[id].session) ==> stop
    {
      GrowsRefl(w);
      OnlyMarksRefl(w);
      var create := Find(CreateSession, w.intents[id]);
      if create.None? || w.intents[create.value].state.NotDelivered? {
        stop := true;
        var _ := MarkNotDelivered(id, healthy);
        MarkedClose(old(w), w, create, id);
      } else if w.intents[create.value].state.Recorded? {
        stop := true;
        MarkBoth(create.value, id, healthy);
        MarkedClose(old(w), w, create, id);
      } else {
        stop := false;
      }
    }

    /** ensureRemoteSubmitReady: a submit waits for its session's create and for the target to be ready. */
    method SubmitReadiness(r: Intent) returns (readiness: Readiness)
      ensures CreateIsDead(w, r.session) && (exists c :: IsFor(w, c, CreateSession, r.session)) ==>
                readiness.CreateFailed?
    {
      assert forall c | IsFor(w, c, CreateSession, r.session) :: Concerns(r, CreateSession, w.intents[c]);
      var create := Find(CreateSession, r);
      if create.None? {
        return Ready;
      }
      var state := w.intents[create.value].state;
      if state.NotDelivered? {
        return CreateFailed;
      }
      assert IsFor(w, create.value, CreateSession, r.session);
      if !state.Accepted? && !state.Reconciled? {
        return NotReady;
      }
      var terminal: bool := *;
      var ready: bool := *;
      readiness := if terminal then CreateFailed else if ready then Ready else NotReady;
    }

    /** The claim, the call and the transition its answer proves. */
    method Deliver(id: IntentId, checked: int, healthy: bool) returns (answer: Option<Answer>)
      requires Valid() && id in w.intents && checked <= w.now
      requires w.intents[id].state.Recorded? ==> checked < w.intents[id].expiry
      modifies this
      ensures Valid() && Grows(old(w), w)
      ensures !old(w).intents[id].state.Recorded? ==> w == old(w)
      ensures answer.None? ==> w == old(w)
      ensures healthy && answer.Some? ==> id in w.intents && Reflects(w.intents[id], answer.value)
    {
      var claimed := Store(id, Claim, healthy);
      if !claimed {
        return None;
      }
      ghost var w1 := w;
      assert IntentOk(id, old(w).intents[id], old(w).now);
      var reply := Call(id, checked);
      answer := Some(reply);
      GrowsTransitive(old(w), w1, w);
      ghost var w2 := w;
      RecordAnswer(id, reply, healthy);
      GrowsTransitive(old(w), w2, w);
    }

    /** The transition after a dispatch call; a result whose content cannot be used leaves the intent in doubt. */
    method RecordAnswer(id: IntentId, reply: Answer, healthy: bool)
      requires Valid() && id in w.intents && w.intents[id].state.Dispatching? && Proves(w.intents[id], reply)
      modifies this
      ensures Valid() && Grows(old(w), w) && id in w.intents
      ensures healthy ==> Reflects(w.intents[id], reply)
    {
      var unusable: bool := *;
      var step := match reply
        case BeforeSend => Mark(NotDelivered, Withheld)
        case Rejected => Mark(NotDelivered, Refused)
        case Result => if unusable then Mark(Uncertain, Undecided) else Mark(Accepted, ByAnswer)
        case _ => Mark(Uncertain, Undecided);
      var _ := Store(id, step, healthy);
    }

    /** dispatchIntent.  While nothing of a session was sent, dispatching one of its intents sends nothing
        and leaves that intent not delivered. */
    method DispatchIntent(id: IntentId, route: bool, healthy: bool)
      requires Valid()
      modifies this
      ensures Valid() && Grows(old(w), w)
      ensures route && healthy && id in old(w).intents && Unsent(old(w), old(w).intents[id].session) ==>
                && OnlyMarks(old(w), w) && Unsent(w, old(w).intents[id].session) && w.intents[id].state.NotDelivered?
    {
      GrowsRefl(w);
      if id !in w.intents || !route {
        return;
      }
      var stop := Guard(id, healthy);
      if stop {
        return;
      }
      var r := w.intents[id];
      var checked := w.now;
      if r.state.Recorded? && checked >= r.expiry {
        var _ := MarkNotDelivered(id, healthy);
        if !r.operation.CloseSession? {
          MarkedOther(old(w), w);
        }
        return;
      }
      if r.operation.SubmitCommand? {
        var readiness := SubmitReadiness(r);
        if readiness.CreateFailed? && r.state.Recorded? {
          var _ := MarkNotDelivered(id, healthy);
          MarkedOther(old(w), w);
        }
        if !readiness.Ready? {
          return;
        }
      }
      var _ := Deliver(id, checked, healthy);
    }

    /** Any order of dispatches over a session of which nothing was sent: no frame leaves, and everything
        that was dispatched ends as not delivered. */
    method DispatchInOrder(order: seq<IntentId>, x: nat)
      requires Valid() && Unsent(w, x) && AllOf(w, order, x)
      modifies this
      ensures Valid() && OnlyMarks(old(w), w) && Unsent(w, x) && AllDead(w, order, |order|)
      ensures SameFrames(old(w), w)
    {
      OnlyMarksRefl(w);
      var n := 0;
      while n < |order|
        invariant 0 <= n <= |order| && Valid() && OnlyMarks(old(w), w) && Unsent(w, x) && AllDead(w, order, n)
      {
        ghost var before := w;
        StillOf(old(w), w, order, x, n);
        DispatchIntent(order[n], true, true);
        OnlyMarksTransitive(old(w), before, w);
        DeadKept(before, w, order, n);
        n := n + 1;
      }
      NoFrames(old(w), w);
    }
  }

  function GivenUp(r: Intent, now: int): Intent {
    r.(state := NotDelivered, basis := Withheld, since := now)
  }

  /** One more frame was sent. */
  predicate IsSent(id: IntentId, r: Intent, s: Intent, checked: int, at: int) {
    && |s.frames| == |r.frames| + 1 && s.frames[..|r.frames|] == r.frames
    && s.frames[|r.frames|] == Sent(FrameOf(id, r), checked, at, s.frames[|r.frames|].reply)
  }

  /** Only the clock moved and frames landed. */
  predicate Quiet(w: World, v: World) {
    && w.now <= v.now && v.intents.Keys == w.intents.Keys
    && forall id | id in w.intents ::
         v.intents[id] == w.intents[id].(taken := v.intents[id].taken) && (w.intents[id].taken ==> v.intents[id].taken)
  }

  lemma QuietRefl(w: World)
    ensures Quiet(w, w)
  {
  }

  lemma QuietTransitive(u: World, v: World, w: World)
    requires Quiet(u, v) && Quiet(v, w)
    ensures Quiet(u, w)
  {
  }

  lemma GrowsRefl(w: World)
    ensures Grows(w, w)
  {
    forall id | id in w.intents ensures Later(w.intents[id], w.intents[id]) {}
  }

  // ---- sessions of which nothing was sent ----

  /** Only recorded intents changed, and only to not delivered. */
  ghost predicate OnlyMarks(w: World, v: World) {
    && v.now == w.now && v.intents.Keys == w.intents.Keys
    && forall i | i in w.intents ::
         v.intents[i] == w.intents[i] || (w.intents[i].state.Recorded? && v.intents[i] == GivenUp(w.intents[i], w.now))
  }

  lemma OnlyMarksRefl(w: World)
    ensures OnlyMarks(w, w)
  {
  }

  lemma OnlyMarksTransitive(u: World, v: World, w: World)
    requires OnlyMarks(u, v) && OnlyMarks(v, w)
    ensures OnlyMarks(u, w)
  {
  }

  /** The order names intents of session x only. */
  ghost predicate AllOf(w: World, order: seq<IntentId>, x: nat) {
    forall k | 0 <= k < |order| :: order[k] in w.intents && w.intents[order[k]].session == x
  }

  ghost predicate AllDead(w: World, order: seq<IntentId>, n: nat) {
    n <= |order| && forall k | 0 <= k < n :: order[k] in w.intents && w.intents[order[k]].state.NotDelivered?
  }

  ghost predicate SameFrames(w: World, v: World) {
    forall i | i in w.intents :: i in v.intents && v.intents[i].frames == w.intents[i].frames
  }

  lemma NoFrames(w: World, v: World)
    requires OnlyMarks(w, v)
    ensures SameFrames(w, v)
  {
  }

  lemma StillOf(w: World, v: World, order: seq<IntentId>, x: nat, n: nat)
    requires OnlyMarks(w, v) && AllOf(w, order, x) && n < |order|
    ensures order[n] in v.intents && v.intents[order[n]].session == x
  {
  }

  lemma DeadKept(w: World, v: World, order: seq<IntentId>, n: nat)
    requires OnlyMarks(w, v) && AllDead(w, order, n) && n < |order|
    requires order[n] in v.intents && v.intents[order[n]].state.NotDelivered?
    ensures AllDead(v, order, n + 1)
  {
  }

  predicate IsFor(w: World, id: IntentId, op: Operation, x: nat) {
    id in w.intents && w.intents[id].operation == op && w.intents[id].session == x
  }

  /** No other intent of the same operation concerns the same session. */
  predicate Lone(w: World, id: IntentId)
    requires id in w.intents
  {
    forall i | i in w.intents && w.intents[i].operation == w.intents[id].operation
               && w.intents[i].session == w.intents[id].session :: i == id
  }

  ghost predicate CreateIsDead(w: World, x: nat) {
    forall c | IsFor(w, c, CreateSession, x) :: w.intents[c].state.NotDelivered?
  }

  /** One create, one close and any submits and cancels of session x, all recorded or already known as
      not delivered; and the close is not given up before the create. */
  ghost predicate Unsent(w: World, x: nat) {
    && (exists c :: IsFor(w, c, CreateSession, x)) && (exists k :: IsFor(w, k, CloseSession, x))
    && (forall i | i in w.intents && w.intents[i].session == x ::
          && (w.intents[i].state.Recorded? || w.intents[i].state.NotDelivered?)
          && !w.intents[i].operation.RunJob?
          && (SessionResource(w.intents[i].operation) ==> Lone(w, i))
          && (w.intents[i].operation.CloseSession? && w.intents[i].state.NotDelivered? ==> CreateIsDead(w, x)))
    && (forall i, j | i in w.intents && j in w.intents && w.intents[i].session == x
          && w.intents[i].operation.CancelCommand?
                      && w.intents[j].operation.SubmitCommand? && w.intents[j].command == w.intents[i].command ::
          w.intents[j].session == x)
  }

  lemma SameKind(w: World, v: World, i: IntentId)
    requires OnlyMarks(w, v) && i in w.intents
    ensures i in v.intents && v.intents[i].operation == w.intents[i].operation
            && v.intents[i].session == w.intents[i].session
    ensures v.intents[i].command == w.intents[i].command
            && (w.intents[i].state.NotDelivered? ==> v.intents[i].state.NotDelivered?)
    ensures w.intents[i].state.Recorded? ==> v.intents[i].state.Recorded? || v.intents[i].state.NotDelivered?
  {
  }

  lemma UnsentKept(w: World, v: World, x: nat)
    requires OnlyMarks(w, v) && Unsent(w, x)
    requires forall k | IsFor(v, k, CloseSession, x) && v.intents[k].state.NotDelivered? :: CreateIsDead(v, x)
    ensures Unsent(v, x)
  {
    var c :| IsFor(w, c, CreateSession, x);
    var k :| IsFor(w, k, CloseSession, x);
    assert IsFor(v, c, CreateSession, x) && IsFor(v, k, CloseSession, x);
    forall i | i in v.intents && v.intents[i].session == x && SessionResource(v.intents[i].operation)
      ensures Lone(v, i) {
      SameKind(w, v, i);
      assert Lone(w, i);
      forall j | j in v.intents && v.intents[j].operation == v.intents[i].operation
          && v.intents[j].session == v.intents[i].session
        ensures j == i
      {
        SameKind(w, v, j);
      }
    }
    forall i | i in v.intents && v.intents[i].session == x
      ensures (v.intents[i].state.Recorded? || v.intents[i].state.NotDelivered?) && !v.intents[i].operation.RunJob?
      ensures v.intents[i].operation.CloseSession? && v.intents[i].state.NotDelivered? ==> CreateIsDead(v, x)
    {
      SameKind(w, v, i);
      assert v.intents[i].operation.CloseSession? ==> IsFor(v, i, CloseSession, x);
    }
  }

  lemma DeadStaysDead(w: World, v: World, x: nat)
    requires OnlyMarks(w, v) && CreateIsDead(w, x)
    ensures CreateIsDead(v, x)
  {
    forall c | IsFor(v, c, CreateSession, x) ensures v.intents[c].state.NotDelivered? {
      assert IsFor(w, c, CreateSession, x);
    }
  }

  /** Marking anything but a close keeps the session unsent. */
  lemma MarkedOther(w: World, v: World)
    requires OnlyMarks(w, v)
    requires forall i | i in w.intents && w.intents[i].operation.CloseSession? :: v.intents[i] == w.intents[i]
    ensures forall x | Unsent(w, x) :: Unsent(v, x)
  {
    forall x | Unsent(w, x) ensures Unsent(v, x) {
      forall k | IsFor(v, k, CloseSession, x) && v.intents[k].state.NotDelivered? ensures CreateIsDead(v, x) {
        assert IsFor(w, k, CloseSession, x);
        DeadStaysDead(w, v, x);
      }
      UnsentKept(w, v, x);
    }
  }

  /** Marking a close after its create keeps the session unsent. */
  lemma MarkedClose(w: World, v: World, create: Option<IntentId>, id: IntentId)
    requires OnlyMarks(w, v) && id in w.intents && w.intents[id].operation.CloseSession?
    requires create.Some? ==>
               create.value in w.intents && Concerns(w.intents[id], CreateSession, w.intents[create.value])
                              && (v.intents[id].state.NotDelivered? ==> v.intents[create.value].state.NotDelivered?)
    requires create.None? ==> forall i | i in w.intents :: !Concerns(w.intents[id], CreateSession, w.intents[i])
    requires forall i | i in w.intents && i != id && create != Some(i) :: v.intents[i] == w.intents[i]
    ensures forall x | Unsent(w, x) :: Unsent(v, x)
  {
    forall x | Unsent(w, x) ensures Unsent(v, x) {
      forall k | IsFor(v, k, CloseSession, x) && v.intents[k].state.NotDelivered? ensures CreateIsDead(v, x) {
        ClosedAfterCreate(w, v, create, id, x, k);
      }
      UnsentKept(w, v, x);
    }
  }

  lemma ClosedAfterCreate(w: World, v: World, create: Option<IntentId>, id: IntentId, x: nat, k: IntentId)
    requires OnlyMarks(w, v) && id in w.intents && w.intents[id].operation.CloseSession? && Unsent(w, x)
    requires create.Some? ==>
               create.value in w.intents && Concerns(w.intents[id], CreateSession, w.intents[create.value])
                              && (v.intents[id].state.NotDelivered? ==> v.intents[create.value].state.NotDelivered?)
    requires create.None? ==> forall i | i in w.intents :: !Concerns(w.intents[id], CreateSession, w.intents[i])
    requires forall i | i in w.intents && i != id && create != Some(i) :: v.intents[i] == w.intents[i]
    requires IsFor(v, k, CloseSession, x) && v.intents[k].state.NotDelivered?
    ensures CreateIsDead(v, x)
  {
    SameKind(w, v, k);
    if w.intents[k].state.NotDelivered? {
      DeadStaysDead(w, v, x);
    } else {
      forall c | IsFor(v, c, CreateSession, x) ensures v.intents[c].state.NotDelivered? {
        SameKind(w, v, c);
        assert Concerns(w.intents[id], CreateSession, w.intents[c]);
        assert Lone(w, c);
      }
    }
  }
}
