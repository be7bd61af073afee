/** When an accepted remote submit or run may be settled: every terminal proof rests on a certificate. */
module TerminalProof {
  import opened Common
  import opened Lifecycle
  import opened EventLog
  import opened Mirror
  import Delivery
  import opened RemoteDriver

  datatype Teardown = Pending | NotCreated | TornDown | TeardownLost

  /** A strict read of a remote one-off job; `command` is the command state it copied, if any. */
  datatype JobView = JobView(phase: JobPhase, teardown: Teardown, command: Option<View>)

  /** provenPreSessionTerminalRemoteJob: failed before any session or command existed. */
  predicate PreSessionFailure(job: JobView) {
    job.phase.Failed? && job.command.None? && job.teardown.NotCreated?
  }

  /** terminalRemoteJob. */
  predicate TerminalJob(job: JobView) {
    job.command.Some? && ((job.phase.Complete? && job.teardown.TornDown?)
        || (job.phase.Lost? && job.teardown.TeardownLost?))
  }

  /** What a proof was based on: a view with what the mirror held then, or a pre-session failure. */
  datatype Evidence =
    | Boundary(view: View, seen: seq<Event>, gap: Option<Gap>)
    | PreSession(job: JobView)

  class AcceptedIntent {
    const mirror: EventMirror
    const driver: Driver
    const id: Delivery.IntentId
    const isRun: bool
    var proof: Option<Evidence>

    ghost predicate Known()
      reads this, driver
    {
      && driver.Valid() && id in driver.w.intents
      && driver.w.intents[id].operation == (if isRun then Delivery.RunJob else Delivery.SubmitCommand)
    }

    function Row(): Delivery.Intent
      reads this, driver
      requires id in driver.w.intents
    {
      driver.w.intents[id]
    }

    /** A proof is a certificate: the mirrored prefix or a recorded gap reaches a terminal boundary that
        matches the target's own report, or a run failed before it had a session; and the target carried
        the intent out. */
    ghost predicate Sound()
      reads this, mirror, driver
    {
      && mirror.Ok() && Known()
      && (proof.Some? ==>
            Row().state.Reconciled? && Row().taken && Supports(proof.value, isRun, mirror.events, mirror.gap))
    }

    constructor (m: EventMirror, d: Driver, intent: Delivery.IntentId)
      requires m.Ok() && d.Valid() && intent in d.w.intents
      requires d.w.intents[intent].operation.SubmitCommand? || d.w.intents[intent].operation.RunJob?
      ensures Sound() && mirror == m && driver == d && id == intent && proof == None
      ensures isRun <==> d.w.intents[intent].operation.RunJob?
    {
      mirror, driver, id, isRun := m, d, intent, d.w.intents[intent].operation.RunJob?;
      proof := None;
    }

    /** A strict read, normalised by a recorded gap; None when it cannot be trusted.  The target can only
        report a command that it has. */
    method ReadView() returns (view: Option<View>)
      requires Known()
      ensures view.Some? ==> Strict(view.value) && Row().taken
    {
      var v: View := *;
      var failed: bool := *;
      failed := failed || !Row().taken;
      var g := mirror.gap;
      if g.Some? && CommandTerminal(v.state) {
        if v.state != g.value.state || v.final != Some(g.value.final) {
          return None;
        }
        v := v.(complete := false, reason := EventGap);
      }
      view := if failed || !Strict(v) then None else Some(v);
    }

    /** MarkRemoteIntentTerminalProof. */
    method MarkProof(e: Evidence)
      requires Sound() && Row().taken && Supports(e, isRun, mirror.events, mirror.gap)
      modifies this, driver
      ensures Sound() && Delivery.Grows(old(driver.w), driver.w)
      ensures old(proof).Some? ==> proof == old(proof) && driver.w == old(driver.w)
      ensures proof != old(proof) ==> proof == Some(e) && (old(Row()).state.Accepted? || old(Row()).state.Reconciled?)
    {
      GrowsRefl(driver.w);
      if proof.None? {
        var ok := driver.Reconcile(id);
        if ok {
          proof := Some(e);
        }
      }
    }

    /** reconcileIntentAfterRemoteGap: only submits are settled here.  An uncertain one is accepted first,
        because the strict read showed that the target has its command. */
    method SettleAfterGap(view: View)
      requires Sound() && !isRun && Row().taken
      requires mirror.gap.Some? && view.reason.EventGap? && Certified(mirror.events, mirror.gap, view)
               && CommandTerminal(view.state)
      modifies this, driver
      ensures Sound() && Delivery.Grows(old(driver.w), driver.w)
      ensures old(proof).Some? ==> proof == old(proof) && driver.w == old(driver.w)
      ensures proof != old(proof) ==>
                old(Row()).state.Uncertain? || old(Row()).state.Accepted? || old(Row()).state.Reconciled?
    {
      GrowsRefl(driver.w);
      if Row().state.Uncertain? {
        var ok := driver.AcceptAfterGap(id);
        if !ok {
          return;
        }
      }
      ghost var mid := driver.w;
      MarkProof(Boundary(view, mirror.events, mirror.gap));
      Delivery.GrowsTransitive(old(driver.w), mid, driver.w);
    }

    /** mirrorCommandEvents with its gap path; true when it returned without an error. */
    method MirrorEvents(frames: seq<Frame>) returns (ok: bool, gapped: bool)
      requires Sound() && forall k | 0 <= k < |frames| :: Truthful(frames[k], mirror.target)
      modifies this, mirror, driver
      ensures Sound() && Prefix(old(mirror.events), mirror.events) && Delivery.Grows(old(driver.w), driver.w)
      ensures old(proof).Some? || isRun ==> proof == old(proof) && driver.w == old(driver.w)
    {
      GrowsRefl(driver.w);
      gapped := false;
      var r := mirror.MirrorStream(frames);
      EvidenceKept(old(proof), isRun, old(mirror.events), mirror.events, old(mirror.gap), mirror.gap, mirror.target);
      if !r.GapReported? {
        return r.Ended?, false;
      }
      var view := ReadView();
      if view.None? {
        return false, false;
      }
      ghost var gapBefore := mirror.gap;
      ok := mirror.RecordGap(r.available, view.value);
      EvidenceKept(proof, isRun, mirror.events, mirror.events, gapBefore, mirror.gap, mirror.target);
      gapped := ok;
      if ok && !isRun {
        SettleAfterGap(view.value.(complete := false, reason := EventGap));
      }
    }

    /** requireTerminalCommandEventBoundary and the proof it licenses. */
    method SettleAtBoundary(view: View)
      requires Sound() && Row().taken && CommandTerminal(view.state)
      modifies this, driver
      ensures Sound() && (old(proof).Some? ==> proof == old(proof)) && Delivery.Grows(old(driver.w), driver.w)
      ensures proof != old(proof) ==> proof == Some(Boundary(view, mirror.events, mirror.gap))
    {
      GrowsRefl(driver.w);
      var certified := mirror.BoundaryHolds(view);
      if certified {
        MarkProof(Boundary(view, mirror.events, mirror.gap));
      }
    }

    /** reconcileAcceptedRemoteSubmit. */
    method ReconcileSubmit(frames: seq<Frame>)
      requires Sound() && !isRun && forall k | 0 <= k < |frames| :: Truthful(frames[k], mirror.target)
      modifies this, mirror, driver
      ensures Sound() && Prefix(old(mirror.events), mirror.events) && Delivery.Grows(old(driver.w), driver.w)
      ensures old(proof).Some? ==> proof == old(proof)
    {
      GrowsRefl(driver.w);
      if proof.Some? || !(Row().state.Accepted? || Row().state.Reconciled?) {
        return;
      }
      var view := ReadView();
      if view.None? {
        return;
      }
      if mirror.gap.None? && !view.value.reason.RetentionExpired? {
        var ok, _ := MirrorEvents(frames);
        if !ok {
          return;
        }
      }
      ghost var mid := driver.w;
      SettleByReading();
      Delivery.GrowsTransitive(old(driver.w), mid, driver.w);
    }

    /** The last read of reconcileAcceptedRemoteSubmit, and the proof a terminal state licenses. */
    method SettleByReading()
      requires Sound()
      modifies this, driver
      ensures Sound() && (old(proof).Some? ==> proof == old(proof)) && Delivery.Grows(old(driver.w), driver.w)
    {
      GrowsRefl(driver.w);
      var view := ReadView();
      if view.Some? && CommandTerminal(view.value.state) {
        SettleAtBoundary(view.value);
      }
    }

    /** reconcileAcceptedRun, with the two reads of the job; the target can only report a job that it has. */
    method ReconcileRun(frames: seq<Frame>, first: Option<JobView>, second: Option<JobView>)
      requires Sound() && isRun && forall k | 0 <= k < |frames| :: Truthful(frames[k], mirror.target)
      requires first.Some? || second.Some? ==> Row().taken
      modifies this, mirror, driver
      ensures Sound() && Prefix(old(mirror.events), mirror.events) && Delivery.Grows(old(driver.w), driver.w)
      ensures old(proof).Some? ==> proof == old(proof)
      ensures proof != old(proof) && proof.value.Boundary? ==>
                second.Some? && TerminalJob(second.value) && second.value.command == Some(proof.value.view)
      ensures proof != old(proof) && proof.value.PreSession? ==>
                first.Some? && PreSessionFailure(first.value) && mirror.events == old(mirror.events)
    {
      if proof.Some? || !(Row().state.Accepted? || Row().state.Reconciled?) {
        return;
      }
      if first.Some? && PreSessionFailure(first.value) {
        MarkProof(PreSession(first.value));
        return;
      }
      if first.None? || !TerminalJob(first.value) {
        return;
      }
      var view := ReadView();
      if view.None? {
        return;
      }
      if mirror.gap.None? && !view.value.reason.RetentionExpired? {
        var ok, gapped := MirrorEvents(frames);
        if !ok {
          return;
        }
        if gapped {
          view := ReadView();
          if view.None? {
            return;
          }
        }
      }
      if second.None? || !TerminalJob(second.value) || second.value.command != view
          || !CommandTerminal(view.value.state) {
        return;
      }
      SettleAtBoundary(view.value);
    }
  }

  ghost predicate Supports(e: Evidence, isRun: bool, events: seq<Event>, gap: Option<Gap>) {
    match e
    case Boundary(view, seen, gapSeen) =>
      && CommandTerminal(view.state) && Certified(seen, gapSeen, view) && Prefix(seen, events)
      && (gapSeen.Some? ==> gap == gapSeen)
    case PreSession(job) => isRun && PreSessionFailure(job)
  }

  /** Evidence survives everything the mirror does later. */
  lemma EvidenceKept(proof: Option<Evidence>, isRun: bool, before: seq<Event>, after: seq<Event>,
                     gapBefore: Option<Gap>, gapAfter: Option<Gap>, target: seq<Event>)
    requires proof.Some? ==> Supports(proof.value, isRun, before, gapBefore)
    requires Prefix(before, after) && (gapBefore.Some? ==> gapAfter == gapBefore)
    ensures proof.Some? ==> Supports(proof.value, isRun, after, gapAfter)
  {
    if proof.Some? && proof.value.Boundary? {
      PrefixTransitive(proof.value.seen, before, after);
    }
  }

  /** A full-log certificate is the target's whole log: nothing is missing and nothing can follow. */
  lemma FullLogIsEverything(target: seq<Event>, events: seq<Event>, gap: Option<Gap>, view: View)
    requires Inspect(target).Valid? && Prefix(events, target) && Certifies(FullLog, events, gap, view)
    ensures events == target && view.final == Some(|target|) && Inspect(target).terminal == Some(view.state)
  {
    PrefixIsValid(target, |events|);
    assert target[..|target|] == target;
  }

  /** A full log never grows again, and a recorded gap stops the mirror: both certificates stay exact. */
  lemma SettledMirrorIsFinal(m: EventMirror, view: View, seen: seq<Event>, gapSeen: Option<Gap>)
    requires m.Ok() && Prefix(seen, m.events) && (gapSeen.Some? ==> m.gap == gapSeen)
    requires Certifies(FullLog, seen, gapSeen, view) || Certifies(GapToEnd, seen, gapSeen, view)
    ensures m.events == seen
    ensures gapSeen.Some? ==> Certified(m.events, m.gap, view.(complete := false, reason := EventGap))
                              || Certifies(FullLog, m.events, m.gap, view)
  {
    PrefixTransitive(seen, m.events, m.target);
    if Certifies(FullLog, seen, gapSeen, view) {
      FullLogIsEverything(m.target, seen, gapSeen, view);
    }
  }
}
