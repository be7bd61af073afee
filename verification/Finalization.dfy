/** What follows a lost-runtime release: ownership markers on the host, the work items that remember which
    of them are still to be removed, and the startup pass that clears them after a crash. */
module Finalization {
  import opened Common
  import opened Lifecycle
  import opened Authority
  import opened Runs

  datatype Host = Host(
    w: World,
    markers: set<SessionId>,       // sessions whose ownership marker is on the host
    pairs: set<CommandId>,         // work items of released pairs, by command
    bare: set<SessionId>,          // work items of released sessions without a command
    recovered: set<SessionId>)     // every session that was ever released as a lost runtime

  datatype Event =
    | Other(a: Action)             // any other step of the authority
    | Release(pairs: set<CommandId>, bare: set<SessionId>)
    | Unmark(session: SessionId)   // FinalizeLostRuntime removed the marker and the workspace
    | SettlePair(command: CommandId)
    | SettleBare(session: SessionId)
    | Clean(session: SessionId)    // an ordinary confirmed cleanup removed the marker

  /** The sessions that still have a work item. */
  function Due(h: Host): set<SessionId> {
    h.bare + PairSessions(h.w, h.pairs)
  }

  /** A release inserts one work item for each runtime it releases, in the same transaction. */
  function Next(h: Host, e: Event): Option<Host> {
    match e
    case Other(a) =>
      if a.ReleaseLost? || Apply(h.w, a).None? then None else
        Some(h.(w := Apply(h.w, a).value,
                markers := if a.OnSession? && a.sop.Spawn? then h.markers + {a.session} else h.markers))
    case Release(pairs, bare) =>
      if Apply(h.w, ReleaseLost(pairs, bare)).None? then None else
        var newPairs, newBare := pairs * LiveSlots(h.w), bare * LiveReservations(h.w);
        Some(h.(w := ReleaseAll(h.w, pairs, bare), pairs := h.pairs + newPairs, bare := h.bare + newBare,
                recovered := h.recovered + newBare + PairSessions(h.w, newPairs)))
    case Unmark(x) => Some(h.(markers := h.markers - {x}))
    case SettlePair(c) => Some(h.(pairs := h.pairs - {c}))
    case SettleBare(x) => Some(h.(bare := h.bare - {x}))
    case Clean(x) => Some(h.(markers := h.markers - {x}))
  }

  /** A lost session whose capacity was released. */
  predicate ReleasedLost(w: World, x: SessionId) {
    InState(w, x, SessionState.Lost) && w.sessions[x].reservation.Released?
  }

  /** What the caller has established: markers go only with a released lost runtime or a session proved gone,
      and a work item goes only after its marker. */
  predicate Allowed(h: Host, e: Event) {
    match e
    case Other(a) => Licensed(h.w, a)
    case Release(pairs, bare) => Licensed(h.w, ReleaseLost(pairs, bare))
    case Unmark(x) => ReleasedLost(h.w, x)
    case SettlePair(c) => c in h.pairs && c in h.w.commands && h.w.commands[c].session !in h.markers
    case SettleBare(x) => x !in h.markers
    case Clean(x) => Gone(h.w, x)
  }

  /** A pair whose release has committed, as the finalization checks it. */
  predicate ReleasedPair(w: World, c: CommandId) {
    RecoverablePair(w, c) && w.commands[c].slot == Some(Released)
  }

  predicate ReleasedBare(w: World, x: SessionId) {
    RecoverableBare(w, x) && w.sessions[x].reservation.Released?
  }

  /** No two pairs of one session. */
  predicate OneEach(w: World, pairs: set<CommandId>) {
    forall c, d | c in pairs && d in pairs && c in w.commands && d in w.commands && c != d ::
      w.commands[c].session != w.commands[d].session
  }

  predicate AllReleased(w: World, pairs: set<CommandId>) {
    forall c | c in pairs :: ReleasedPair(w, c)
  }

  predicate AllReleasedBare(w: World, bare: set<SessionId>) {
    forall x | x in bare :: ReleasedBare(w, x)
  }

  predicate HostOk(h: Host) {
    && Inv(h.w) && OneEach(h.w, h.pairs)
    && AllReleased(h.w, h.pairs) && AllReleasedBare(h.w, h.bare)
    && (forall x | x in h.recovered :: ReleasedLost(h.w, x))
    && h.recovered * h.markers <= Due(h) <= h.recovered
  }

  // ---- what later steps keep ----

  lemma PairStays(w: World, a: Action, c: CommandId)
    requires Inv(w) && Licensed(w, a) && Apply(w, a).Some? && ReleasedPair(w, c)
    ensures ReleasedPair(Apply(w, a).value, c) && Apply(w, a).value.commands[c].session == w.commands[c].session
  {
    var v := Apply(w, a).value;
    StepSound(w, a);
    var x := w.commands[c].session;
    assert CommandLater(w.commands[c], v.commands[c]) && SessionLater(w.sessions[x], v.sessions[x]);
    GenerationStays(w, a, x);
  }

  /** A lost session keeps its recorded generation. */
  lemma GenerationStays(w: World, a: Action, x: SessionId)
    requires Apply(w, a).Some? && InState(w, x, SessionState.Lost)
    ensures x in Apply(w, a).value.sessions && Apply(w, a).value.sessions[x].generation == w.sessions[x].generation
  {
  }

  lemma BareStays(w: World, a: Action, x: SessionId)
    requires Inv(w) && Licensed(w, a) && Apply(w, a).Some? && ReleasedBare(w, x)
    ensures ReleasedBare(Apply(w, a).value, x)
  {
    var v := Apply(w, a).value;
    StepSound(w, a);
    assert SessionLater(w.sessions[x], v.sessions[x]);
    forall c | c in v.commands ensures v.commands[c].session != x {
      assert c in w.commands ==> CommandLater(w.commands[c], v.commands[c]);
    }
  }

  lemma LostStays(w: World, a: Action, x: SessionId)
    requires Inv(w) && Licensed(w, a) && Apply(w, a).Some? && ReleasedLost(w, x)
    ensures ReleasedLost(Apply(w, a).value, x)
  {
    StepSound(w, a);
    assert SessionLater(w.sessions[x], Apply(w, a).value.sessions[x]);
  }

  lemma OtherKeeps(h: Host, a: Action)
    requires HostOk(h) && Licensed(h.w, a) && Next(h, Other(a)).Some?
    ensures HostOk(Next(h, Other(a)).value)
  {
    var g := Next(h, Other(a)).value;
    StepSound(h.w, a);
    ItemsStay(h, a);
    SameSessions(h.w, g.w, h.pairs);
    if a.OnSession? && a.sop.Spawn? {
      assert SessionOk(h.w.epoch, h.w.sessions[a.session]);
      assert a.session !in h.recovered;
    }
  }

  /** Commands that keep their session name the same sessions. */
  lemma SameSessions(w: World, v: World, p: set<CommandId>)
    requires forall c | c in p :: c in w.commands && c in v.commands && v.commands[c].session == w.commands[c].session
    ensures PairSessions(v, p) == PairSessions(w, p) && (OneEach(w, p) ==> OneEach(v, p))
  {
  }

  /** What the items of a host name is still so in v. */
  ghost predicate ItemsHold(h: Host, v: World) {
    && (forall c | c in h.pairs ::
          c in h.w.commands && ReleasedPair(v, c) && v.commands[c].session == h.w.commands[c].session)
    && (forall x | x in h.bare :: ReleasedBare(v, x))
    && (forall x | x in h.recovered :: ReleasedLost(v, x))
  }

  lemma ItemsStay(h: Host, a: Action)
    requires HostOk(h) && Licensed(h.w, a) && Apply(h.w, a).Some?
    ensures ItemsHold(h, Apply(h.w, a).value)
  {
    forall c | c in h.pairs { PairStays(h.w, a, c); }
    forall x | x in h.bare { BareStays(h.w, a, x); }
    forall x | x in h.recovered { LostStays(h.w, a, x); }
  }

  /** What a release has just released. */
  lemma NewPair(w: World, pairs: set<CommandId>, bare: set<SessionId>, c: CommandId)
    requires c in pairs && c in LiveSlots(w) && RecoverablePair(w, c)
    ensures var v := ReleaseAll(w, pairs, bare);
            ReleasedPair(v, c) && v.commands[c].session == w.commands[c].session
                && ReleasedLost(v, w.commands[c].session)
  {
    assert w.commands[c].session in PairSessions(w, pairs);
  }

  lemma NewBare(w: World, pairs: set<CommandId>, bare: set<SessionId>, x: SessionId)
    requires x in bare && RecoverableBare(w, x)
    ensures ReleasedBare(ReleaseAll(w, pairs, bare), x) && ReleasedLost(ReleaseAll(w, pairs, bare), x)
  {
  }

  lemma NewPairs(w: World, pairs: set<CommandId>, bare: set<SessionId>, live: set<CommandId>)
    requires live <= pairs && live <= LiveSlots(w) && forall c | c in live :: RecoverablePair(w, c)
    ensures var v := ReleaseAll(w, pairs, bare);
            && (forall c | c in live :: ReleasedPair(v, c) && v.commands[c].session == w.commands[c].session)
            && (forall x | x in PairSessions(w, live) :: ReleasedLost(v, x))
  {
    forall c | c in live { NewPair(w, pairs, bare, c); }
  }

  lemma NewBares(w: World, pairs: set<CommandId>, bare: set<SessionId>, live: set<SessionId>)
    requires live <= bare && forall x | x in live :: RecoverableBare(w, x)
    ensures forall x | x in live ::
              ReleasedBare(ReleaseAll(w, pairs, bare), x) && ReleasedLost(ReleaseAll(w, pairs, bare), x)
  {
    forall x | x in live { NewBare(w, pairs, bare, x); }
  }

  /** A newly released pair held its session's reservation, so no earlier item names that session. */
  lemma Apart(h: Host, live: set<CommandId>)
    requires (forall c | c in h.pairs :: ReleasedPair(h.w, c)) && OneEach(h.w, h.pairs)
    requires live <= LiveSlots(h.w) && OneEach(h.w, live) && forall c | c in live :: RecoverablePair(h.w, c)
    ensures OneEach(h.w, h.pairs + live)
  {
    forall c, d | c in h.pairs && d in live ensures h.w.commands[c].session != h.w.commands[d].session {
      assert ReleasedPair(h.w, c) && RecoverablePair(h.w, d);
    }
  }

  lemma PairSessionsUnion(w: World, p: set<CommandId>, q: set<CommandId>)
    ensures PairSessions(w, p + q) == PairSessions(w, p) + PairSessions(w, q)
  {
  }

  lemma SelectionMeans(w: World, pairs: set<CommandId>, bare: set<SessionId>)
    requires CanReleaseLost(w, pairs, bare)
    ensures (forall c | c in pairs :: RecoverablePair(w, c)) && (forall x | x in bare :: RecoverableBare(w, x))
    ensures OneEach(w, pairs * LiveSlots(w))
  {
  }

  lemma ReleaseKeeps(h: Host, pairs: set<CommandId>, bare: set<SessionId>)
    requires HostOk(h) && Allowed(h, Release(pairs, bare)) && Next(h, Release(pairs, bare)).Some?
    ensures HostOk(Next(h, Release(pairs, bare)).value)
  {
    StepSound(h.w, ReleaseLost(pairs, bare));
    ItemsStay(h, ReleaseLost(pairs, bare));
    var live := pairs * LiveSlots(h.w);
    SelectionMeans(h.w, pairs, bare);
    Apart(h, live);
    Joined(h, Next(h, Release(pairs, bare)).value, pairs, bare, live, bare * LiveReservations(h.w));
  }

  /** Old items that stay and new items that are sound make a sound host. */
  lemma Joined(h: Host, g: Host, pairs: set<CommandId>, bare: set<SessionId>, live: set<CommandId>,
               liveBare: set<SessionId>)
    requires g.w == ReleaseAll(h.w, pairs, bare) && Inv(g.w) && ItemsHold(h, g.w)
    requires h.recovered * h.markers <= Due(h) <= h.recovered
    requires live <= pairs && live <= LiveSlots(h.w) && OneEach(h.w, h.pairs + live)
    requires forall c | c in live :: RecoverablePair(h.w, c)
    requires liveBare <= bare && forall x | x in liveBare :: RecoverableBare(h.w, x)
    requires g.markers == h.markers && g.pairs == h.pairs + live && g.bare == h.bare + liveBare
    requires g.recovered == h.recovered + liveBare + PairSessions(h.w, live)
    ensures HostOk(g)
  {
    NewPairs(h.w, pairs, bare, live);
    NewBares(h.w, pairs, bare, liveBare);
    SameSessions(h.w, g.w, h.pairs + live);
    PairSessionsUnion(h.w, h.pairs, live);
    assert Due(g) == Due(h) + liveBare + PairSessions(h.w, live);
  }

  lemma SettleKeeps(h: Host, c: CommandId)
    requires HostOk(h) && Allowed(h, SettlePair(c))
    ensures HostOk(Next(h, SettlePair(c)).value)
  {
    var g := Next(h, SettlePair(c)).value;
    assert PairSessions(h.w, h.pairs) == PairSessions(g.w, g.pairs) + {h.w.commands[c].session};
  }

  lemma EventKeeps(h: Host, e: Event)
    requires HostOk(h) && Allowed(h, e) && Next(h, e).Some?
    ensures HostOk(Next(h, e).value)
  {
    match e
    case Other(a) => OtherKeeps(h, a);
    case Release(pairs, bare) => ReleaseKeeps(h, pairs, bare);
    case SettlePair(c) => SettleKeeps(h, c);
    case _ =>
  }

  // ---- every history of the host, crashes included ----

  ghost predicate LeadsTo(h: Host, g: Host) {
    exists e :: Allowed(h, e) && Next(h, e) == Some(g)
  }

  ghost predicate EventAt(hs: seq<Host>, i: nat)
    requires i + 1 < |hs|
  {
    LeadsTo(hs[i], hs[i + 1])
  }

  ghost predicate History(hs: seq<Host>) {
    && |hs| > 0 && hs[0] == Host(Start(hs[0].w.limit), {}, {}, {}, {})
    && forall i: nat | i + 1 < |hs| :: EventAt(hs, i)
  }

  lemma {:induction false} HistoryKeeps(hs: seq<Host>, n: nat)
    requires History(hs) && n < |hs|
    ensures HostOk(hs[n])
  {
    if n == 0 {
      StartInv(hs[0].w.limit);
    } else {
      HistoryKeeps(hs, n - 1);
      assert EventAt(hs, n - 1);
      var e :| Allowed(hs[n - 1], e) && Next(hs[n - 1], e) == Some(hs[n]);
      EventKeeps(hs[n - 1], e);
    }
  }

  /** After every history, so after a crash at any point between a release and its finalization: the work
      items and the markers left behind name exactly the released runtimes that are not finalized yet, and
      none of them is alive. */
  lemma PendingIsExact(hs: seq<Host>)
    requires History(hs)
    ensures var h := hs[|hs| - 1];
            && Due(h) * h.markers == h.recovered * h.markers
            && Due(h) !! AliveSessions(h.w) && Due(h) !! LiveReservations(h.w)
            && AllReleased(h.w, h.pairs) && AllReleasedBare(h.w, h.bare)
  {
    var h := hs[|hs| - 1];
    HistoryKeeps(hs, |hs| - 1);
    forall x | x in Due(h) ensures x !in AliveSessions(h.w) && x !in LiveReservations(h.w) {
      assert ReleasedLost(h.w, x) && SessionOk(h.w.epoch, h.w.sessions[x]);
    }
  }

  // ---- the pending pass ----

  lemma HistoryStep(hs: seq<Host>, g: Host)
    requires History(hs) && LeadsTo(hs[|hs| - 1], g)
    ensures History(hs + [g])
  {
    var longer := hs + [g];
    forall i: nat | i + 1 < |longer| ensures EventAt(longer, i) {
      if i + 1 < |hs| {
        assert EventAt(hs, i);
        assert longer[i] == hs[i] && longer[i + 1] == hs[i + 1];
      }
    }
  }

  /** The items of p that stay when these sessions are finalized and stored. */
  function Unsettled(w: World, p: set<CommandId>, settled: set<SessionId>): set<CommandId> {
    set c | c in p && c in w.commands && w.commands[c].session !in settled
  }

  /** The pass over the pairs, with those in `rest` still before it. */
  ghost predicate PairsPassed(h: Host, g: Host, rest: set<CommandId>, confirmed: set<SessionId>,
                              settled: set<SessionId>) {
    && g.w == h.w && g.recovered == h.recovered && g.bare == h.bare
    && g.markers == h.markers - PairSessions(h.w, h.pairs - rest) * confirmed
    && g.pairs == rest + Unsettled(h.w, h.pairs - rest, settled)
  }

  ghost predicate BarePassed(h: Host, g: Host, rest: set<SessionId>, confirmed: set<SessionId>,
                             settled: set<SessionId>) {
    && g.w == h.w && g.recovered == h.recovered && g.pairs == h.pairs
    && g.markers == h.markers - (h.bare - rest) * confirmed && g.bare == h.bare - (h.bare - rest) * settled
  }

  lemma PairsBegin(h: Host, confirmed: set<SessionId>, settled: set<SessionId>)
    ensures PairsPassed(h, h, h.pairs, confirmed, settled)
  {
    assert h.pairs - h.pairs == {};
    assert PairSessions(h.w, {}) == {} && Unsettled(h.w, {}, settled) == {};
  }

  lemma BareBegin(h: Host, confirmed: set<SessionId>, settled: set<SessionId>)
    ensures BarePassed(h, h, h.bare, confirmed, settled)
  {
  }

  lemma OneMore(h: Host, g: Host, k: Host, rest: set<CommandId>, c: CommandId, confirmed: set<SessionId>,
                settled: set<SessionId>)
    requires PairsPassed(h, g, rest, confirmed, settled) && c in rest && rest <= h.pairs && c in h.w.commands
    requires k.w == g.w && k.recovered == g.recovered && k.bare == g.bare
    requires k.markers == g.markers - {h.w.commands[c].session} * confirmed
    requires k.pairs == g.pairs - (if h.w.commands[c].session in settled then {c} else {})
    ensures PairsPassed(h, k, rest - {c}, confirmed, settled)
  {
    var done := h.pairs - rest;
    assert h.pairs - (rest - {c}) == done + {c};
    PairSessionsUnion(h.w, done, {c});
    assert PairSessions(h.w, {c}) == {h.w.commands[c].session};
    assert Unsettled(h.w, done + {c}, settled) ==
           Unsettled(h.w, done, settled) + (if h.w.commands[c].session in settled then {} else {c});
  }

  /** One finalization request: a session and its command. */
  datatype Request = Request(session: SessionId, command: CommandId)

  ghost predicate Lists(w: World, pairs: set<CommandId>, requests: seq<Request>) {
    && (forall i | 0 <= i < |requests| :: requests[i].command in pairs && requests[i].command in w.commands
                                          && requests[i].session == w.commands[requests[i].command].session)
    && (forall c | c in pairs :: exists i :: 0 <= i < |requests| && requests[i].command == c)
    && (forall i, j | 0 <= i < j < |requests| :: requests[i].command != requests[j].command)
  }

  /** ListPendingLostRuntimeRecoveryFinalizations: the stored items, each once. */
  method ListRequests(w: World, pairs: set<CommandId>) returns (requests: seq<Request>)
    requires forall c | c in pairs :: c in w.commands
    ensures Lists(w, pairs, requests)
  {
    requests := [];
    var rest := pairs;
    while rest != {}
      invariant rest <= pairs && Lists(w, pairs - rest, requests)
      decreases |rest|
    {
      var c :| c in rest;
      ghost var before, done := requests, pairs - rest;
      requests := requests + [Request(w.commands[c].session, c)];
      rest := rest - {c};
      forall d | d in pairs - rest ensures exists i :: 0 <= i < |requests| && requests[i].command == d {
        if d == c {
          assert requests[|before|].command == d;
        } else {
          assert d in done;
          var i :| 0 <= i < |before| && before[i].command == d;
          assert requests[i].command == d;
        }
      }
    }
    assert pairs - {} == pairs;
  }

  /** What the request loop accepts of its first n requests. */
  ghost predicate Fit(w: World, requests: seq<Request>, n: nat)
    requires n <= |requests|
  {
    && (forall i | 0 <= i < n ::
          ReleasedPair(w, requests[i].command) && w.commands[requests[i].command].session == requests[i].session)
    && (forall i, j | 0 <= i < j < n ::
          requests[i].session != requests[j].session && requests[i].command != requests[j].command)
  }

  /** The loop of finalizeReleasedLostRuntimeRecoveryBatch: repeated sessions or commands and anything whose
      release is not durable are refused. */
  method CheckRequests(w: World, requests: seq<Request>) returns (ok: bool)
    ensures ok <==> Fit(w, requests, |requests|)
  {
    var sessions: set<SessionId> := {};
    var commands: set<CommandId> := {};
    var i := 0;
    while i < |requests|
      invariant i <= |requests| && Fit(w, requests, i)
      invariant forall x :: x in sessions <==> exists k :: 0 <= k < i && requests[k].session == x
      invariant forall c :: c in commands <==> exists k :: 0 <= k < i && requests[k].command == c
    {
      var r := requests[i];
      if r.session in sessions || r.command in commands {
        return false;
      }
      if !ReleasedPair(w, r.command) || w.commands[r.command].session != r.session {
        return false;
      }
      sessions, commands := sessions + {r.session}, commands + {r.command};
      i := i + 1;
    }
    ok := true;
  }

  /** The check of each commandless item. */
  method CheckBare(w: World, bare: set<SessionId>) returns (ok: bool)
    ensures ok <==> AllReleasedBare(w, bare)
  {
    var rest := bare;
    while rest != {}
      invariant rest <= bare && forall x | x in bare - rest :: ReleasedBare(w, x)
      decreases |rest|
    {
      var x :| x in rest;
      if !ReleasedBare(w, x) {
        return false;
      }
      rest := rest - {x};
    }
    ok := true;
  }

  lemma ListedAlike(w: World, pairs: set<CommandId>, requests: seq<Request>)
    requires Lists(w, pairs, requests)
    ensures Fit(w, requests, |requests|) <==> OneEach(w, pairs) && AllReleased(w, pairs)
  {
    if Fit(w, requests, |requests|) {
      forall c | c in pairs ensures ReleasedPair(w, c) {
        var i :| 0 <= i < |requests| && requests[i].command == c;
      }
      forall c, d | c in pairs && d in pairs && c != d ensures w.commands[c].session != w.commands[d].session {
        var i :| 0 <= i < |requests| && requests[i].command == c;
        var j :| 0 <= j < |requests| && requests[j].command == d;
        assert requests[i].session == w.commands[c].session && requests[j].session == w.commands[d].session;
        assert i < j || j < i;
      }
    }
  }

  class Keeper {
    var h: Host
    ghost var history: seq<Host>

    ghost predicate Valid()
      reads this
    {
      History(history) && history[|history| - 1] == h
    }

    constructor (limit: nat)
      ensures Valid() && h == Host(Start(limit), {}, {}, {}, {})
    {
      h := Host(Start(limit), {}, {}, {}, {});
      history := [Host(Start(limit), {}, {}, {}, {})];
    }

    method Take(e: Event)
      requires Valid() && Allowed(h, e) && Next(h, e).Some?
      modifies this
      ensures Valid() && Next(old(h), e) == Some(h)
    {
      assert LeadsTo(h, Next(h, e).value);
      HistoryStep(history, Next(h, e).value);
      h := Next(h, e).value;
      history := history + [h];
    }

    /** The inventory checks before any finalization.  They never refuse what a release has left behind. */
    method CheckPending() returns (ok: bool)
      ensures ok <==> OneEach(h.w, h.pairs) && AllReleased(h.w, h.pairs) && AllReleasedBare(h.w, h.bare)
      ensures Valid() ==> ok
    {
      if Valid() {
        HistoryKeeps(history, |history| - 1);
      }
      var known := forall c | c in h.pairs :: c in h.w.commands;
      if !known {
        return false;
      }
      var requests := ListRequests(h.w, h.pairs);
      ok := CheckRequests(h.w, requests);
      ListedAlike(h.w, h.pairs, requests);
      if ok {
        ok := CheckBare(h.w, h.bare);
      }
    }

    /** finalizeLostRuntimeRecovery: the marker first, then the work item. */
    method FinalizePair(c: CommandId, confirmed: set<SessionId>, stored: set<SessionId>)
      requires Valid() && c in h.pairs && ReleasedPair(h.w, c)
      modifies this
      ensures Valid() && h.w == old(h.w) && h.recovered == old(h.recovered) && h.bare == old(h.bare)
      ensures h.markers == old(h.markers) - {h.w.commands[c].session} * confirmed
      ensures h.pairs == old(h.pairs) - (if h.w.commands[c].session in confirmed * stored then {c} else {})
    {
      var x := h.w.commands[c].session;
      if x in confirmed {
        Take(Unmark(x));
        if x in stored {
          Take(SettlePair(c));
        }
      }
    }

    /** finalizeCommandlessLostRuntimeRecovery. */
    method FinalizeBare(x: SessionId, confirmed: set<SessionId>, stored: set<SessionId>)
      requires Valid() && x in h.bare && ReleasedBare(h.w, x)
      modifies this
      ensures Valid() && h.w == old(h.w) && h.recovered == old(h.recovered) && h.pairs == old(h.pairs)
      ensures h.markers == old(h.markers) - {x} * confirmed && h.bare == old(h.bare) - {x} * confirmed * stored
    {
      if x in confirmed {
        Take(Unmark(x));
        if x in stored {
          Take(SettleBare(x));
        }
      }
    }

    method PairTurn(c: CommandId, confirmed: set<SessionId>, stored: set<SessionId>, ghost start: Host,
                    ghost rest: set<CommandId>)
      requires Valid() && c in rest && rest <= start.pairs && AllReleased(start.w, start.pairs)
      requires PairsPassed(start, h, rest, confirmed, confirmed * stored)
      modifies this
      ensures Valid() && PairsPassed(start, h, rest - {c}, confirmed, confirmed * stored)
    {
      FinalizePair(c, confirmed, stored);
      OneMore(start, old(h), h, rest, c, confirmed, confirmed * stored);
    }

    method FinalizePairs(confirmed: set<SessionId>, stored: set<SessionId>)
      requires Valid() && AllReleased(h.w, h.pairs)
      modifies this
      ensures Valid() && PairsPassed(old(h), h, {}, confirmed, confirmed * stored)
    {
      PairsBegin(h, confirmed, confirmed * stored);
      var rest := h.pairs;
      while rest != {}
        invariant Valid() && rest <= old(h).pairs && PairsPassed(old(h), h, rest, confirmed, confirmed * stored)
        decreases |rest|
      {
        var c :| c in rest;
        PairTurn(c, confirmed, stored, old(h), rest);
        rest := rest - {c};
      }
    }

    method FinalizeBares(confirmed: set<SessionId>, stored: set<SessionId>)
      requires Valid() && AllReleasedBare(h.w, h.bare)
      modifies this
      ensures Valid() && BarePassed(old(h), h, {}, confirmed, confirmed * stored)
    {
      BareBegin(h, confirmed, confirmed * stored);
      var rest := h.bare;
      while rest != {}
        invariant Valid() && rest <= old(h).bare && BarePassed(old(h), h, rest, confirmed, confirmed * stored)
        decreases |rest|
      {
        var x :| x in rest;
        BareTurn(x, confirmed, stored, old(h), rest);
        rest := rest - {x};
      }
    }

    method BareTurn(x: SessionId, confirmed: set<SessionId>, stored: set<SessionId>, ghost start: Host,
                    ghost rest: set<SessionId>)
      requires Valid() && x in rest && rest <= start.bare && AllReleasedBare(start.w, start.bare)
      requires BarePassed(start, h, rest, confirmed, confirmed * stored)
      modifies this
      ensures Valid() && BarePassed(start, h, rest - {x}, confirmed, confirmed * stored)
    {
      FinalizeBare(x, confirmed, stored);
    }

    /** finalizePendingLostRuntimeRecoveries, after any history and so after a crash at any point: it removes
        the markers of exactly the released runtimes that the runtime confirms, touches no live one and no
        stored capacity, and when everything is confirmed and stored leaves nothing to do. */
    method FinalizePending(confirmed: set<SessionId>, stored: set<SessionId>) returns (ok: bool)
      requires Valid()
      modifies this
      ensures Valid() && h.w == old(h.w) && h.recovered == old(h.recovered)
      ensures h.markers == old(h.markers) - old(h.recovered) * confirmed
      ensures AliveSessions(h.w) * old(h.markers) <= h.markers
      ensures Due(h) == Due(old(h)) - confirmed * stored
      ensures ok <==> Due(old(h)) <= confirmed * stored
      ensures ok ==> h.pairs == {} && h.bare == {} && h.recovered !! h.markers
    {
      PendingIsExact(history);
      HistoryKeeps(history, |history| - 1);
      ok := CheckPending();
      if ok {
        FinalizePairs(confirmed, stored);
        ghost var mid := h;
        FinalizeBares(confirmed, stored);
        ok := h.pairs == {} && h.bare == {};
        PassOutcome(old(h), mid, h, confirmed, confirmed * stored);
      }
    }
  }

  lemma PassOutcome(h: Host, mid: Host, g: Host, confirmed: set<SessionId>, settled: set<SessionId>)
    requires PairsPassed(h, mid, {}, confirmed, settled) && BarePassed(mid, g, {}, confirmed, settled)
             && settled <= confirmed
    requires h.recovered * h.markers <= Due(h) <= h.recovered && Due(h) !! AliveSessions(h.w)
    requires forall c | c in h.pairs :: c in h.w.commands
    ensures g.markers == h.markers - h.recovered * confirmed && AliveSessions(h.w) * h.markers <= g.markers
    ensures g.w == h.w && g.recovered == h.recovered && Due(g) == Due(h) - settled
    ensures g.pairs == {} && g.bare == {} <==> Due(h) <= settled
    ensures Due(h) <= settled ==> g.recovered !! g.markers
  {
    UnsettledSessions(h.w, h.pairs, settled);
    assert h.pairs - {} == h.pairs;
    assert g.pairs == Unsettled(h.w, h.pairs, settled) && g.bare == h.bare - settled;
    assert g.markers == h.markers - Due(h) * confirmed;
    EmptyIffNoneDue(h, settled);
  }

  lemma UnsettledSessions(w: World, p: set<CommandId>, settled: set<SessionId>)
    ensures PairSessions(w, Unsettled(w, p, settled)) == PairSessions(w, p) - settled
  {
  }

  lemma EmptyIffNoneDue(h: Host, settled: set<SessionId>)
    requires forall c | c in h.pairs :: c in h.w.commands
    ensures Unsettled(h.w, h.pairs, settled) == {} && h.bare - settled == {} <==> Due(h) <= settled
  {
    if Due(h) <= settled {
      forall c | c in h.pairs ensures c !in Unsettled(h.w, h.pairs, settled) {
        assert h.w.commands[c].session in Due(h);
      }
    } else if Unsettled(h.w, h.pairs, settled) == {} {
      UnsettledSessions(h.w, h.pairs, settled);
      assert PairSessions(h.w, {}) == {};
      var x :| x in Due(h) && x !in settled;
      assert x !in PairSessions(h.w, h.pairs) - settled;
      assert x in h.bare - settled;
    }
  }
}
