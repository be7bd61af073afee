/** Mirroring a remote command's events, and what its terminal proof rests on. */
module Mirror {
  import opened Common
  import opened Lifecycle
  import opened EventLog

  datatype Frame =
    | EventFrame(sequence: nat, event: Event)
    | StreamEnd(last: nat)
    | HistoryGap(available: nat)
    | Unreadable

  datatype Gap = Gap(missingFrom: nat, missingTo: nat, available: nat, final: nat, state: CommandState)

  datatype Reason = NoReason | CaptureBoundary | EventGap | RetentionExpired

  /** A strict read of the target's command. */
  datatype View = View(state: CommandState, exitCode: Option<int>, final: Option<nat>, complete: bool, truncated: bool,
      reason: Reason)

  datatype StreamResult = Ended(last: nat) | GapReported(available: nat) | Broken

  predicate Prefix(a: seq<Event>, b: seq<Event>) {
    |a| <= |b| && b[..|a|] == a
  }

  /** A frame of a truthful target says what its log says. */
  predicate Truthful(f: Frame, log: seq<Event>) {
    f.EventFrame? ==> 1 <= f.sequence <= |log| && f.event == log[f.sequence - 1]
  }

  /** validateStrictProjectionOutput. */
  predicate Strict(v: View) {
    if !CommandTerminal(v.state) then v.reason.NoReason? && !v.complete && v.final.None?
    else
      && v.final.Some? && v.final.value >= MinimumTerminalSequence(v.state)
      && !(v.state.Lost? && v.complete)
      && (if v.complete then v.reason.NoReason?
          else v.reason.EventGap? || v.reason.RetentionExpired? || (v.reason.CaptureBoundary? && v.state.Lost?))
      && (v.state.Succeeded? ==> v.exitCode == Some(0))
      && (v.state.Failed? ==> v.exitCode.Some? && v.exitCode != Some(0))
  }

  /** The local mirror of one remote command. */
  class EventMirror {
    ghost const target: seq<Event>   // the target's log
    var events: seq<Event>           // the mirrored prefix; its length is the cursor
    var gap: Option<Gap>

    ghost predicate Ok()
      reads this
    {
      && Inspect(target).Valid? && Prefix(events, target)
      && (gap.Some? ==> Covers(gap.value, events))
    }

    constructor (ghost log: seq<Event>)
      requires Inspect(log).Valid?
      ensures Ok() && target == log && events == [] && gap == None
    {
      target := log;
      events := [];
      gap := None;
    }

    /** MirrorRemoteEvents for one event: appended in order, recognised as a duplicate, or refused. */
    method MirrorEvent(sequence: nat, event: Event) returns (ok: bool)
      requires Ok() && Truthful(EventFrame(sequence, event), target)
      modifies this`events
      ensures Ok() && Prefix(old(events), events) && |events| <= |old(events)| + 1
      ensures ok <==> gap.None? && sequence <= |old(events)| + 1
      ensures |events| == |old(events)| + 1 <==> ok && sequence == |old(events)| + 1
    {
      if gap.Some? {
        return false;
      }
      if sequence <= |events| {
        assert events[sequence - 1] == target[..|events|][sequence - 1];
        return events[sequence - 1] == event;
      }
      if sequence != |events| + 1 {
        return false;
      }
      PrefixIsValid(target, |events|);
      PrefixIsValid(target, |events| + 1);
      var lifecycle := InspectLifecycle(events);
      if lifecycle.Invalid? || lifecycle.terminal.Some? {
        return false;
      }
      assert target[..|events| + 1] == events + [event];
      var candidate := InspectLifecycle(events + [event]);
      if candidate.Invalid? {
        return false;
      }
      events := events + [event];
      ok := true;
    }

    /** The frame callback of mirrorCommandEvents, run over whatever arrives before the stream ends. */
    method MirrorStream(frames: seq<Frame>) returns (r: StreamResult)
      requires Ok() && forall k | 0 <= k < |frames| :: Truthful(frames[k], target)
      modifies this`events
      ensures Ok() && Prefix(old(events), events)
      ensures r.Ended? ==> r.last == |events|
      ensures r.Ended? ==> frames != [] && frames[|frames| - 1] == StreamEnd(|events|)
      ensures gap.None? && Undisturbed(frames, |old(events)|, target) ==>
                r.Ended? && |events| == |old(events)| + |frames| - 1
    {
      var sawEnd, sawTerminal := false, false;
      for n := 0 to |frames|
        invariant Ok() && Prefix(old(events), events)
        invariant sawEnd ==> n > 0 && frames[n - 1] == StreamEnd(|events|)
        invariant sawTerminal ==> |events| == |target|
        invariant gap.None? && Undisturbed(frames, |old(events)|, target) ==>
                    if n < |frames| then !sawEnd && |events| == |old(events)| + n
                    else sawEnd && |events| == |old(events)| + n - 1
      {
        if sawEnd {
          return Broken;
        }
        match frames[n] {
          case EventFrame(sequence, event) =>
            if sawTerminal {
              return Broken;
            }
            ghost var before := events;
            var ok := MirrorEvent(sequence, event);
            assert Prefix(old(events), events) by { PrefixTransitive(old(events), before, events); }
            if !ok {
              return Broken;
            }
            sawTerminal := event.kind.TerminalEvent?;
            if sawTerminal {
              TerminalIsLast(target, sequence);
            }
          case StreamEnd(last) =>
            if last != |events| {
              return Broken;
            }
            sawEnd := true;
          case HistoryGap(available) =>
            return if sawTerminal then Broken else GapReported(available);
          case Unreadable => return Broken;
        }
      }
      r := if sawEnd then Ended(|events|) else Broken;
    }

    /** confirmRemoteTerminal, validateRemoteEventGapPrefix and RecordRemoteEventGap: the gap covers exactly
        what the mirror lacks of a terminal command. */
    method RecordGap(available: nat, view: View) returns (ok: bool)
      requires Ok()
      modifies this`gap
      ensures Ok() && (old(gap).Some? ==> gap == old(gap))
      ensures ok <==> Closes(events, available, view) && (old(gap).None? || old(gap).value == GapFor(available, view))
      ensures ok ==> gap == Some(GapFor(available, view))
    {
      if available != |events| || !Strict(view) || !CommandTerminal(view.state) || view.final.value <= available {
        return false;
      }
      var lifecycle := InspectLifecycle(events);
      if lifecycle.Invalid? || lifecycle.terminal.Some? || (lifecycle.truncated && !view.truncated) {
        return false;
      }
      var record := GapFor(available, view);
      if gap.Some? {
        return gap.value == record;
      }
      gap := Some(record);
      ok := true;
    }

    /** requireTerminalCommandEventBoundary: true exactly with a certificate. */
    method BoundaryHolds(view: View) returns (ok: bool)
      requires Ok()
      ensures ok <==> Certified(events, gap, view)
    {
      PrefixIsValid(target, |events|);
      if view.final.None? || view.final.value == 0 {
        return false;
      }
      var final := view.final.value;
      var lifecycle := InspectLifecycle(events);
      match view.reason {
        case RetentionExpired =>
          if view.complete {
            return false;
          }
          if lifecycle.terminal.None? {
            return |events| < final && (lifecycle.truncated ==> view.truncated);
          }
          ok := |events| == final && lifecycle.terminal == Some(view.state) && lifecycle.truncated == view.truncated;
        case EventGap =>
          if view.complete || lifecycle.terminal.Some? || (lifecycle.truncated && !view.truncated) || gap.None? {
            return false;
          }
          var g := gap.value;
          ok := g.final == final && g.available == |events| && g.state == view.state
                && g.missingFrom == |events| + 1 && g.missingTo == final && |events| < final;
        case _ =>
          ok := |events| == final && lifecycle.terminal == Some(view.state) && lifecycle.truncated == view.truncated;
      }
    }
  }

  /** The events after the cursor in order and the matching end. */
  predicate Undisturbed(frames: seq<Frame>, cursor: nat, log: seq<Event>) {
    && 0 < |frames| <= |log| - cursor + 1
    && (forall k | 0 <= k < |frames| - 1 :: frames[k] == EventFrame(cursor + k + 1, log[cursor + k]))
    && frames[|frames| - 1] == StreamEnd(cursor + |frames| - 1)
  }

  /** A terminal event is the last of its log. */
  lemma TerminalIsLast(log: seq<Event>, sequence: nat)
    requires Inspect(log).Valid? && 1 <= sequence <= |log| && log[sequence - 1].kind.TerminalEvent?
    ensures sequence == |log|
  {
    PrefixIsValid(log, sequence);
    assert log[..sequence][..sequence - 1] == log[..sequence - 1];
  }

  lemma PrefixTransitive(a: seq<Event>, b: seq<Event>, c: seq<Event>)
    requires Prefix(a, b) && Prefix(b, c)
    ensures Prefix(a, c)
  {
    assert c[..|a|] == c[..|b|][..|a|];
  }

  /** A strict terminal view whose final sequence lies beyond an unfinished prefix that it does not contradict. */
  predicate Closes(events: seq<Event>, available: nat, view: View) {
    && available == |events| && Strict(view) && CommandTerminal(view.state) && view.final.value > available
    && Inspect(events).Valid? && Inspect(events).terminal.None? && (Inspect(events).truncated ==> view.truncated)
  }

  function GapFor(available: nat, view: View): Gap
    requires view.final.Some?
  {
    Gap(available + 1, view.final.value, available, view.final.value, view.state)
  }

  /** A recorded gap starts right after an unfinished mirrored prefix and reaches the final sequence. */
  predicate Covers(g: Gap, events: seq<Event>) {
    && g.available == |events| && g.missingFrom == |events| + 1 && g.missingTo == g.final && |events| < g.final
    && CommandTerminal(g.state) && Inspect(events).Valid? && Inspect(events).terminal.None?
  }

  datatype Certificate = FullLog | GapToEnd | Retained | NoCertificate

  /** Which certificate, if any, a strict terminal view has in the mirror. */
  predicate Certifies(cert: Certificate, events: seq<Event>, gap: Option<Gap>, view: View) {
    var i := Inspect(events);
    && i.Valid? && view.final.Some? && view.final.value > 0
    && match cert
       case FullLog =>
         i.terminal == Some(view.state) && |events| == view.final.value && i.truncated == view.truncated
       case GapToEnd =>
         && gap.Some? && Covers(gap.value, events) && gap.value.final == view.final.value
               && gap.value.state == view.state
         && (i.truncated ==> view.truncated)
       case Retained =>
         i.terminal.None? && |events| < view.final.value && (i.truncated ==> view.truncated)
       case NoCertificate => false
  }

  /** The certificate each kind of view needs. */
  ghost predicate Certified(events: seq<Event>, gap: Option<Gap>, view: View) {
    match view.reason
    case RetentionExpired =>
      !view.complete && (Certifies(FullLog, events, gap, view) || Certifies(Retained, events, gap, view))
    case EventGap => !view.complete && Certifies(GapToEnd, events, gap, view)
    case _ => Certifies(FullLog, events, gap, view)
  }
}
