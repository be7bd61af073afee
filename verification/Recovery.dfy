/** Operator recovery of lost runtimes: check an explicit set, prove every runtime gone, release all of
    it in one transaction. */
module Recovery {
  import opened Common
  import opened Lifecycle
  import opened Authority
  import opened Runs
  import opened Interference
  import opened Startup

  datatype Pair = Pair(session: SessionId, command: CommandId)

  /** The commands of the first n pairs. */
  function CommandsOf(pairs: seq<Pair>, n: nat): set<CommandId>
    requires n <= |pairs|
  {
    if n == 0 then {} else CommandsOf(pairs, n - 1) + {pairs[n - 1].command}
  }

  function SessionsOf(pairs: seq<Pair>, n: nat): set<SessionId>
    requires n <= |pairs|
  {
    if n == 0 then {} else SessionsOf(pairs, n - 1) + {pairs[n - 1].session}
  }

  function Ids(q: seq<SessionId>, n: nat): set<SessionId>
    requires n <= |q|
  {
    if n == 0 then {} else Ids(q, n - 1) + {q[n - 1]}
  }

  /** checkLostRuntimeRecoveryTarget without the event-tail conditions. */
  predicate Eligible(w: World, p: Pair) {
    && RecoverablePair(w, p.command) && w.commands[p.command].session == p.session
    && (forall c | c in w.commands && c != p.command && w.commands[c].session == p.session :: Finished(w, c))
  }

  // ---- counting ----

  lemma {:induction false} PairSessionsSize(w: World, held: set<CommandId>)
    requires forall c | c in held :: c in w.commands
    requires forall c, d | c in held && d in held && c != d :: w.commands[c].session != w.commands[d].session
    ensures |PairSessions(w, held)| == |held|
    decreases |held|
  {
    if held == {} {
      assert PairSessions(w, held) == {};
    } else {
      var c :| c in held;
      PairSessionsSize(w, held - {c});
      assert PairSessions(w, held) == PairSessions(w, held - {c}) + {w.commands[c].session};
      assert w.commands[c].session !in PairSessions(w, held - {c});
    }
  }

  predicate Exact(w: World, held: set<CommandId>, heldBare: set<SessionId>) {
    LiveSlots(w) == held && LiveReservations(w) == PairSessions(w, held) + heldBare
  }

  /** Equal counts over distinct selections leave no room for anything else that is live. */
  lemma CountsAreExact(w: World, held: set<CommandId>, heldBare: set<SessionId>)
    requires held <= LiveSlots(w) && heldBare <= LiveReservations(w)
    requires forall c | c in held :: c in w.commands && w.commands[c].session in LiveReservations(w)
    requires forall c, d | c in held && d in held && c != d :: w.commands[c].session != w.commands[d].session
    requires PairSessions(w, held) !! heldBare
    ensures |LiveSlots(w)| == |held| && |LiveReservations(w)| == |held| + |heldBare| <==> Exact(w, held, heldBare)
  {
    PairSessionsSize(w, held);
    var all := PairSessions(w, held) + heldBare;
    assert |all| == |held| + |heldBare|;
    if |LiveSlots(w)| == |held| && |LiveReservations(w)| == |held| + |heldBare| {
      SubsetSize(held, LiveSlots(w));
      SubsetSize(all, LiveReservations(w));
    }
  }

  // ---- the check ----

  /** Each of the first n pairs is eligible and shares neither session nor command with an earlier one. */
  predicate PairsFit(pairs: seq<Pair>, n: nat, eligible: set<Pair>)
    requires n <= |pairs|
  {
    n > 0 ==>
    && PairsFit(pairs, n - 1, eligible) && pairs[n - 1] in eligible
    && pairs[n - 1].session !in SessionsOf(pairs, n - 1) && pairs[n - 1].command !in CommandsOf(pairs, n - 1)
  }

  predicate BareFits(bare: seq<SessionId>, n: nat, taken: set<SessionId>, eligible: set<SessionId>)
    requires n <= |bare|
  {
    n > 0 ==>
    BareFits(bare, n - 1, taken, eligible) && bare[n - 1] in eligible && bare[n - 1] !in taken
        && bare[n - 1] !in Ids(bare, n - 1)
  }

  /** How many of the first n are still live. */
  function PairsLive(pairs: seq<Pair>, n: nat, live: set<CommandId>): nat
    requires n <= |pairs|
  {
    if n == 0 then 0 else PairsLive(pairs, n - 1, live) + (if pairs[n - 1].command in live then 1 else 0)
  }

  function BareLive(bare: seq<SessionId>, n: nat, live: set<SessionId>): nat
    requires n <= |bare|
  {
    if n == 0 then 0 else BareLive(bare, n - 1, live) + (if bare[n - 1] in live then 1 else 0)
  }

  lemma {:induction false} PairsLiveSize(pairs: seq<Pair>, n: nat, eligible: set<Pair>, live: set<CommandId>)
    requires n <= |pairs| && PairsFit(pairs, n, eligible)
    ensures PairsLive(pairs, n, live) == |CommandsOf(pairs, n) * live|
  {
    if n > 0 {
      PairsLiveSize(pairs, n - 1, eligible, live);
      AddOne(CommandsOf(pairs, n - 1), pairs[n - 1].command, live);
    }
  }

  lemma {:induction false} BareLiveSize(bare: seq<SessionId>, n: nat, taken: set<SessionId>, eligible: set<SessionId>,
                                        live: set<SessionId>)
    requires n <= |bare| && BareFits(bare, n, taken, eligible)
    ensures BareLive(bare, n, live) == |Ids(bare, n) * live|
  {
    if n > 0 {
      BareLiveSize(bare, n - 1, taken, eligible, live);
      AddOne(Ids(bare, n - 1), bare[n - 1], live);
    }
  }

  lemma AddOne(s: set<nat>, x: nat, live: set<nat>)
    ensures x !in s ==> |(s + {x}) * live| == |s * live| + (if x in live then 1 else 0)
  {
    if x in live {
      assert (s + {x}) * live == s * live + {x};
    } else {
      assert (s + {x}) * live == s * live;
    }
  }

  lemma {:induction false} PairsUnfit(pairs: seq<Pair>, i: nat, n: nat, eligible: set<Pair>)
    requires i <= n <= |pairs| && !PairsFit(pairs, i, eligible)
    ensures !PairsFit(pairs, n, eligible)
    decreases n
  {
    if i < n {
      PairsUnfit(pairs, i, n - 1, eligible);
    }
  }

  lemma {:induction false} BareUnfit(bare: seq<SessionId>, i: nat, n: nat, taken: set<SessionId>,
                                     eligible: set<SessionId>)
    requires i <= n <= |bare| && !BareFits(bare, i, taken, eligible)
    ensures !BareFits(bare, n, taken, eligible)
    decreases n
  {
    if i < n {
      BareUnfit(bare, i, n - 1, taken, eligible);
    }
  }

  /** The pair loop: duplicates and ineligible targets are refused, retained pairs are counted. */
  method CheckPairs(pairs: seq<Pair>, eligible: set<Pair>, live: set<CommandId>)
    returns (ok: bool, seen: set<SessionId>, unreleased: nat)
    ensures ok == PairsFit(pairs, |pairs|, eligible)
    ensures ok ==> seen == SessionsOf(pairs, |pairs|) && unreleased == PairsLive(pairs, |pairs|, live)
  {
    seen, unreleased := {}, 0;
    var seenCommands: set<CommandId> := {};
    var i := 0;
    while i < |pairs|
      invariant 0 <= i <= |pairs| && PairsFit(pairs, i, eligible)
      invariant seen == SessionsOf(pairs, i) && seenCommands == CommandsOf(pairs, i)
      invariant unreleased == PairsLive(pairs, i, live)
    {
      var p := pairs[i];
      if p.session in seen || p.command in seenCommands || p !in eligible {
        PairsUnfit(pairs, i + 1, |pairs|, eligible);
        return false, seen, unreleased;
      }
      seen, seenCommands := seen + {p.session}, seenCommands + {p.command};
      unreleased := unreleased + (if p.command in live then 1 else 0);
      i := i + 1;
    }
    ok := true;
  }

  /** The commandless loop. */
  method CheckBare(bare: seq<SessionId>, taken: set<SessionId>, eligible: set<SessionId>, live: set<SessionId>)
    returns (ok: bool, unreleased: nat)
    ensures ok == BareFits(bare, |bare|, taken, eligible)
    ensures ok ==> unreleased == BareLive(bare, |bare|, live)
  {
    unreleased := 0;
    var seen: set<SessionId> := {};
    var i := 0;
    while i < |bare|
      invariant 0 <= i <= |bare| && BareFits(bare, i, taken, eligible)
      invariant seen == Ids(bare, i) && unreleased == BareLive(bare, i, live)
    {
      var x := bare[i];
      if x in taken || x in seen || x !in eligible {
        BareUnfit(bare, i + 1, |bare|, taken, eligible);
        return false, unreleased;
      }
      seen := seen + {x};
      unreleased := unreleased + (if x in live then 1 else 0);
      i := i + 1;
    }
    ok := true;
  }

  function EligiblePairs(w: World): set<Pair> {
    set c | c in w.commands && Eligible(w, Pair(w.commands[c].session, c)) :: Pair(w.commands[c].session, c)
  }

  function EligibleBare(w: World): set<SessionId> {
    set x | x in w.sessions && RecoverableBare(w, x)
  }

  /** The requests are distinct and each names a lost runtime that may be recovered. */
  predicate Fits(w: World, pairs: seq<Pair>, bare: seq<SessionId>) {
    PairsFit(pairs, |pairs|, EligiblePairs(w)) && BareFits(bare, |bare|, SessionsOf(pairs, |pairs|), EligibleBare(w))
  }

  /** checkLostRuntimeRecoverySet: it passes exactly when the requests are distinct, eligible, and the
      runtimes they retain are precisely everything that is live. */
  method CheckSet(w: World, pairs: seq<Pair>, bare: seq<SessionId>) returns (ok: bool)
    ensures ok <==>
      && (pairs != [] || bare != []) && Fits(w, pairs, bare)
      && Exact(w, CommandsOf(pairs, |pairs|) * LiveSlots(w), Ids(bare, |bare|) * LiveReservations(w))
  {
    if pairs == [] && bare == [] {
      return false;
    }
    var slots, reservations := LiveSlots(w), LiveReservations(w);
    var pairsOk, seen, unreleasedPairs := CheckPairs(pairs, EligiblePairs(w), slots);
    if !pairsOk {
      return false;
    }
    var bareOk, unreleasedSessions := CheckBare(bare, seen, EligibleBare(w), reservations);
    if !bareOk {
      return false;
    }
    PairsLiveSize(pairs, |pairs|, EligiblePairs(w), slots);
    BareLiveSize(bare, |bare|, seen, EligibleBare(w), reservations);
    SelectionFits(w, pairs, bare);
    CountsAreExact(w, CommandsOf(pairs, |pairs|) * slots, Ids(bare, |bare|) * reservations);
    ok := |slots| == unreleasedPairs && |reservations| == unreleasedPairs + unreleasedSessions;
  }

  lemma {:induction false} PairsFitMeans(w: World, pairs: seq<Pair>, n: nat)
    requires n <= |pairs| && PairsFit(pairs, n, EligiblePairs(w))
    ensures forall c | c in CommandsOf(pairs, n) ::
              RecoverablePair(w, c) && w.commands[c].session in SessionsOf(pairs, n)
    ensures forall c, d | c in CommandsOf(pairs, n) && d in CommandsOf(pairs, n) && c != d ::
              c in w.commands && d in w.commands && w.commands[c].session != w.commands[d].session
  {
    if n > 0 {
      PairsFitMeans(w, pairs, n - 1);
    }
  }

  lemma {:induction false} BareFitsMeans(w: World, taken: set<SessionId>, bare: seq<SessionId>, n: nat)
    requires n <= |bare| && BareFits(bare, n, taken, EligibleBare(w))
    ensures forall x | x in Ids(bare, n) :: RecoverableBare(w, x) && x !in taken
  {
    if n > 0 {
      BareFitsMeans(w, taken, bare, n - 1);
    }
  }

  lemma SelectionFits(w: World, pairs: seq<Pair>, bare: seq<SessionId>)
    requires Fits(w, pairs, bare)
    ensures var held := CommandsOf(pairs, |pairs|) * LiveSlots(w);
            && (forall c | c in held :: c in w.commands && w.commands[c].session in LiveReservations(w))
            && (forall c, d | c in held && d in held && c != d :: w.commands[c].session != w.commands[d].session)
            && PairSessions(w, held) !! Ids(bare, |bare|) * LiveReservations(w)
  {
    PairsFitMeans(w, pairs, |pairs|);
    BareFitsMeans(w, SessionsOf(pairs, |pairs|), bare, |bare|);
  }

  // ---- proving and releasing ----

  /** Only proofs that sessions are gone separate u from w. */
  ghost predicate Marked(u: World, w: World) {
    && w.commands == u.commands && w.jobs == u.jobs && w.limit == u.limit && w.epoch == u.epoch
    && w.sessions.Keys == u.sessions.Keys
    && (forall x | x in u.sessions :: MarkedRow(u.sessions[x], w.sessions[x]))
  }

  predicate MarkedRow(r: SessionRow, s: SessionRow) {
    s == r || s == r.(alive := false, gone := true)
  }

  lemma MarkedStep(u: World, v: World, x: SessionId)
    requires Marked(u, v) && x in v.sessions
    ensures Marked(u, PutSession(v, x, ProvedIf(v.sessions[x], true)))
  {
  }

  lemma MarkedKeeps(u: World, w: World)
    requires Marked(u, w)
    ensures LiveSlots(w) == LiveSlots(u) && LiveReservations(w) == LiveReservations(u)
    ensures forall c | RecoverablePair(u, c) :: RecoverablePair(w, c)
    ensures forall x | RecoverableBare(u, x) :: RecoverableBare(w, x)
    ensures forall x | Gone(u, x) :: Gone(w, x)
  {
    assert LiveReservations(w) == LiveReservations(u);
    forall c | RecoverablePair(u, c) ensures RecoverablePair(w, c) {
      assert MarkedRow(u.sessions[u.commands[c].session], w.sessions[u.commands[c].session]);
    }
    forall x | RecoverableBare(u, x) ensures RecoverableBare(w, x) {
      assert MarkedRow(u.sessions[x], w.sessions[x]);
    }
    forall x | Gone(u, x) ensures Gone(w, x) {
      assert MarkedRow(u.sessions[x], w.sessions[x]);
    }
  }

  lemma LostIsSettled(u: World, w: World, x: SessionId)
    requires Reachable(w) && Marked(u, w) && InState(u, x, SessionState.Lost)
    ensures x in w.sessions && !CreationInFlight(w, x)
  {
    assert MarkedRow(u.sessions[x], w.sessions[x]);
    PastCreation(w, x);
  }

  /** One ReconcileLostRuntime: a runtime already recovered is not asked again. */
  method ProveOne(s: Offline, x: SessionId, held: bool, answers: set<SessionId>, ghost u: World) returns (ok: bool)
    requires Reachable(s.w) && Marked(u, s.w) && InState(u, x, SessionState.Lost)
    modifies s
    ensures Reachable(s.w) && Marked(u, s.w)
    ensures ok == (held ==> x in answers)
    ensures ok && held ==> Gone(s.w, x)
    ensures !held ==> s.w == old(s.w)
    ensures forall y | Gone(old(s.w), y) :: Gone(s.w, y)
  {
    ok := true;
    if held {
      LostIsSettled(u, s.w, x);
      ok := x in answers;
      if ok {
        MarkedStep(u, s.w, x);
        s.Reconcile(x, true);
      }
    }
  }

  method ProvePairs(s: Offline, pairs: seq<Pair>, answers: set<SessionId>) returns (ok: bool)
    requires Reachable(s.w)
    requires forall i | 0 <= i < |pairs| ::
               RecoverablePair(s.w, pairs[i].command) && s.w.commands[pairs[i].command].session == pairs[i].session
    modifies s
    ensures Reachable(s.w) && Marked(old(s.w), s.w)
    ensures ok <==>
              forall i | 0 <= i < |pairs| && pairs[i].command in LiveSlots(old(s.w)) :: pairs[i].session in answers
    ensures ok ==> forall i | 0 <= i < |pairs| && pairs[i].command in LiveSlots(old(s.w)) :: Gone(s.w, pairs[i].session)
    ensures (forall i | 0 <= i < |pairs| :: pairs[i].command !in LiveSlots(old(s.w))) ==> s.w == old(s.w)
  {
    var live := LiveSlots(s.w);
    var i := 0;
    while i < |pairs|
      invariant 0 <= i <= |pairs| && Reachable(s.w) && Marked(old(s.w), s.w)
      invariant forall k | 0 <= k < i && pairs[k].command in live ::
                  pairs[k].session in answers && Gone(s.w, pairs[k].session)
      invariant (forall k | 0 <= k < |pairs| :: pairs[k].command !in live) ==> s.w == old(s.w)
    {
      var proved := ProveOne(s, pairs[i].session, pairs[i].command in live, answers, old(s.w));
      if !proved {
        return false;
      }
      i := i + 1;
    }
    ok := true;
  }

  method ProveBare(s: Offline, bare: seq<SessionId>, answers: set<SessionId>, ghost u: World, live: set<SessionId>)
    returns (ok: bool)
    requires Reachable(s.w) && Marked(u, s.w) && forall i | 0 <= i < |bare| :: InState(u, bare[i], SessionState.Lost)
    modifies s
    ensures Reachable(s.w) && Marked(u, s.w)
    ensures ok <==> forall i | 0 <= i < |bare| && bare[i] in live :: bare[i] in answers
    ensures ok ==> forall i | 0 <= i < |bare| && bare[i] in live :: Gone(s.w, bare[i])
    ensures forall y | Gone(old(s.w), y) :: Gone(s.w, y)
    ensures bare == [] ==> s.w == old(s.w)
  {
    var i := 0;
    while i < |bare|
      invariant 0 <= i <= |bare| && Reachable(s.w) && Marked(u, s.w)
      invariant forall k | 0 <= k < i && bare[k] in live :: bare[k] in answers && Gone(s.w, bare[k])
      invariant forall y | Gone(old(s.w), y) :: Gone(s.w, y)
      invariant bare == [] ==> s.w == old(s.w)
    {
      var proved := ProveOne(s, bare[i], bare[i] in live, answers, u);
      if !proved {
        return false;
      }
      i := i + 1;
    }
    ok := true;
  }

  lemma {:induction false} CommandIndex(pairs: seq<Pair>, n: nat, c: CommandId) returns (i: nat)
    requires n <= |pairs| && c in CommandsOf(pairs, n)
    ensures i < n && pairs[i].command == c
  {
    i := n - 1;
    if pairs[i].command != c {
      i := CommandIndex(pairs, n - 1, c);
    }
  }

  lemma {:induction false} IdIndex(q: seq<SessionId>, n: nat, x: SessionId) returns (i: nat)
    requires n <= |q| && x in Ids(q, n)
    ensures i < n && q[i] == x
  {
    i := n - 1;
    if q[i] != x {
      i := IdIndex(q, n - 1, x);
    }
  }

  lemma {:induction false} PairIsListed(w: World, pairs: seq<Pair>, n: nat, i: nat)
    requires i < n <= |pairs| && PairsFit(pairs, n, EligiblePairs(w))
    ensures pairs[i].command in CommandsOf(pairs, n) && Eligible(w, pairs[i])
  {
    if i < n - 1 {
      PairIsListed(w, pairs, n - 1, i);
    }
  }

  lemma {:induction false} BareIsListed(w: World, taken: set<SessionId>, bare: seq<SessionId>, n: nat, i: nat)
    requires i < n <= |bare| && BareFits(bare, n, taken, EligibleBare(w))
    ensures RecoverableBare(w, bare[i])
  {
    if i < n - 1 {
      BareIsListed(w, taken, bare, n - 1, i);
    }
  }

  /** A released pair was released with its session, which had been proved gone. */
  lemma ReleasedIsGone(w: World, c: CommandId)
    requires Reachable(w) && RecoverablePair(w, c) && c !in LiveSlots(w)
    ensures Gone(w, w.commands[c].session)
  {
    ReachableInv(w);
    assert w.commands[c].slot.value.Released?;
  }

  lemma ReleasedBareIsGone(w: World, x: SessionId)
    requires Reachable(w) && x in w.sessions && x !in LiveReservations(w)
    ensures Gone(w, x)
  {
    ReachableInv(w);
    assert w.sessions[x].reservation.Released?;
  }

  ghost predicate AllGone(w: World, pairs: set<CommandId>, bare: set<SessionId>) {
    && (forall c | c in pairs :: c in w.commands && Gone(w, w.commands[c].session))
    && (forall x | x in bare :: Gone(w, x))
  }

  lemma ProofsLicense(u: World, w: World, pairs: seq<Pair>, bare: seq<SessionId>)
    requires Reachable(w) && Marked(u, w) && Fits(u, pairs, bare)
    requires forall i | 0 <= i < |pairs| && pairs[i].command in LiveSlots(u) :: Gone(w, pairs[i].session)
    requires forall i | 0 <= i < |bare| && bare[i] in LiveReservations(u) :: Gone(w, bare[i])
    ensures AllGone(w, CommandsOf(pairs, |pairs|), Ids(bare, |bare|))
  {
    MarkedKeeps(u, w);
    forall c | c in CommandsOf(pairs, |pairs|) ensures c in w.commands && Gone(w, w.commands[c].session) {
      var i := CommandIndex(pairs, |pairs|, c);
      PairIsListed(u, pairs, |pairs|, i);
      if c !in LiveSlots(u) {
        ReleasedIsGone(w, c);
      }
    }
    forall x | x in Ids(bare, |bare|) ensures Gone(w, x) {
      var i := IdIndex(bare, |bare|, x);
      BareIsListed(u, SessionsOf(pairs, |pairs|), bare, |bare|, i);
      if x !in LiveReservations(u) {
        ReleasedBareIsGone(w, x);
      }
    }
  }

  lemma ExactMayRelease(u: World, w: World, pairs: seq<Pair>, bare: seq<SessionId>)
    requires Marked(u, w) && Fits(u, pairs, bare)
    requires Exact(u, CommandsOf(pairs, |pairs|) * LiveSlots(u), Ids(bare, |bare|) * LiveReservations(u))
    ensures CanReleaseLost(w, CommandsOf(pairs, |pairs|), Ids(bare, |bare|))
    ensures Exact(w, CommandsOf(pairs, |pairs|) * LiveSlots(w), Ids(bare, |bare|) * LiveReservations(w))
  {
    MarkedKeeps(u, w);
    PairsFitMeans(u, pairs, |pairs|);
    BareFitsMeans(u, SessionsOf(pairs, |pairs|), bare, |bare|);
    SelectionFits(u, pairs, bare);
    CountsAreExact(u, CommandsOf(pairs, |pairs|) * LiveSlots(u), Ids(bare, |bare|) * LiveReservations(u));
  }

  /** Releasing an exact selection leaves no live capacity at all. */
  lemma ReleaseEmpties(w: World, pairs: set<CommandId>, bare: set<SessionId>)
    requires Exact(w, pairs * LiveSlots(w), bare * LiveReservations(w))
    ensures LiveSlots(ReleaseAll(w, pairs, bare)) == {} && LiveReservations(ReleaseAll(w, pairs, bare)) == {}
  {
    var v := ReleaseAll(w, pairs, bare);
    forall c | c in w.commands ensures c !in LiveSlots(v) {
      assert c in LiveSlots(w) ==> c in pairs;
    }
    forall x | x in w.sessions ensures x !in LiveReservations(v) {
      assert x in LiveReservations(w) ==> x in bare + PairSessions(w, pairs);
    }
  }

  lemma StillRecoverable(w: World, pairs: set<CommandId>, bare: set<SessionId>, c: CommandId)
    requires c in pairs && RecoverablePair(w, c)
    ensures RecoverablePair(ReleaseAll(w, pairs, bare), c) && c !in LiveSlots(ReleaseAll(w, pairs, bare))
    ensures ReleaseAll(w, pairs, bare).commands[c].session == w.commands[c].session
  {
    assert w.commands[c].session in PairSessions(w, pairs);
  }

  lemma BareStillRecoverable(w: World, pairs: set<CommandId>, bare: set<SessionId>, x: SessionId)
    requires x in bare && RecoverableBare(w, x)
    ensures RecoverableBare(ReleaseAll(w, pairs, bare), x) && x !in LiveReservations(ReleaseAll(w, pairs, bare))
  {
  }

  lemma MayReleaseAgain(w: World, v: World, pairs: set<CommandId>, bare: set<SessionId>)
    requires forall c | c in pairs :: c in w.commands && RecoverablePair(v, c) && c !in LiveSlots(v)
    requires forall c | c in pairs :: c in v.commands && v.commands[c].session == w.commands[c].session
    requires forall x | x in bare :: RecoverableBare(v, x) && x !in LiveReservations(v)
    requires forall c, d | c in pairs && d in pairs && c != d :: w.commands[c].session != w.commands[d].session
    ensures CanReleaseLost(v, pairs, bare)
  {
  }

  /** A retry of a release that has committed is accepted and writes nothing. */
  lemma ReleaseTwice(w: World, pairs: set<CommandId>, bare: set<SessionId>)
    requires CanReleaseLost(w, pairs, bare)
    ensures CanReleaseLost(ReleaseAll(w, pairs, bare), pairs, bare)
    ensures ReleaseAll(ReleaseAll(w, pairs, bare), pairs, bare) == ReleaseAll(w, pairs, bare)
  {
    forall c | c in pairs { StillRecoverable(w, pairs, bare, c); }
    forall x | x in bare { BareStillRecoverable(w, pairs, bare, x); }
    MayReleaseAgain(w, ReleaseAll(w, pairs, bare), pairs, bare);
    ReleasedAgain(w, pairs, bare);
  }

  lemma ReleasedAgain(w: World, pairs: set<CommandId>, bare: set<SessionId>)
    requires forall c | c in pairs :: c in w.commands
    ensures ReleaseAll(ReleaseAll(w, pairs, bare), pairs, bare) == ReleaseAll(w, pairs, bare)
  {
    var v := ReleaseAll(w, pairs, bare);
    assert PairSessions(v, pairs) == PairSessions(w, pairs);
    assert ReleaseAll(v, pairs, bare).sessions == v.sessions;
    assert ReleaseAll(v, pairs, bare).commands == v.commands;
  }

  /** RecoverLostRuntimeRecoverySet up to its release: all or nothing.  Success needs every retained
      runtime proved gone and leaves no live capacity; any refusal, unconfirmed runtime or store failure
      leaves all capacity as it was. */
  method Recover(s: Offline, pairs: seq<Pair>, bare: seq<SessionId>, answers: set<SessionId>) returns (ok: bool)
    requires Reachable(s.w)
    modifies s
    ensures Reachable(s.w)
    ensures ok ==> LiveSlots(s.w) == {} && LiveReservations(s.w) == {}
    ensures ok ==> LiveReservations(old(s.w)) <= answers
    ensures !ok ==> Marked(old(s.w), s.w)
  {
    ok := CheckSet(s.w, pairs, bare);
    if !ok {
      return;
    }
    ok := ProveAll(s, pairs, bare, answers);
    if !ok {
      return;
    }
    var p, b := CommandsOf(pairs, |pairs|), Ids(bare, |bare|);
    ExactMayRelease(old(s.w), s.w, pairs, bare);
    ReleaseEmpties(s.w, p, b);
    RetainedAreProved(old(s.w), pairs, bare, answers);
    ok := s.Step(ReleaseLost(p, b));
  }

  method ProveAll(s: Offline, pairs: seq<Pair>, bare: seq<SessionId>, answers: set<SessionId>) returns (ok: bool)
    requires Reachable(s.w) && Fits(s.w, pairs, bare)
    modifies s
    ensures Reachable(s.w) && Marked(old(s.w), s.w)
    ensures ok <==> Answered(old(s.w), pairs, bare, answers)
    ensures ok ==> AllGone(s.w, CommandsOf(pairs, |pairs|), Ids(bare, |bare|))
    ensures CommandsOf(pairs, |pairs|) * LiveSlots(old(s.w)) == {} && bare == [] ==> s.w == old(s.w)
  {
    forall i | 0 <= i < |pairs| ensures Eligible(s.w, pairs[i]) && pairs[i].command in CommandsOf(pairs, |pairs|) {
      PairIsListed(s.w, pairs, |pairs|, i);
    }
    forall i | 0 <= i < |bare| ensures RecoverableBare(s.w, bare[i]) {
      BareIsListed(s.w, SessionsOf(pairs, |pairs|), bare, |bare|, i);
    }
    var live := LiveReservations(s.w);
    ok := ProvePairs(s, pairs, answers);
    if ok {
      ok := ProveBare(s, bare, answers, old(s.w), live);
    }
    if ok {
      ProofsLicense(old(s.w), s.w, pairs, bare);
    }
  }

  /** The runtime confirmed every selected runtime that still holds capacity. */
  ghost predicate Answered(w: World, pairs: seq<Pair>, bare: seq<SessionId>, answers: set<SessionId>) {
    && (forall i | 0 <= i < |pairs| && pairs[i].command in LiveSlots(w) :: pairs[i].session in answers)
    && (forall i | 0 <= i < |bare| && bare[i] in LiveReservations(w) :: bare[i] in answers)
  }

  lemma RetainedAreProved(w: World, pairs: seq<Pair>, bare: seq<SessionId>, answers: set<SessionId>)
    requires Fits(w, pairs, bare) && Answered(w, pairs, bare, answers)
    requires Exact(w, CommandsOf(pairs, |pairs|) * LiveSlots(w), Ids(bare, |bare|) * LiveReservations(w))
    ensures LiveReservations(w) <= answers
  {
    forall x | x in LiveReservations(w) ensures x in answers {
      if x in Ids(bare, |bare|) {
        var i := IdIndex(bare, |bare|, x);
      } else {
        var c :| c in CommandsOf(pairs, |pairs|) && c in LiveSlots(w) && w.commands[c].session == x;
        var i := CommandIndex(pairs, |pairs|, c);
        PairIsListed(w, pairs, |pairs|, i);
      }
    }
  }

  // ---- pairs only ----

  /** checkLostRuntimeRecoveryBatch: when every pair is already released nothing is counted, so that a
      retry may only finalize; otherwise the retained pairs must be everything that is live. */
  method CheckBatch(w: World, pairs: seq<Pair>) returns (ok: bool)
    ensures ok <==>
      && pairs != [] && Fits(w, pairs, [])
      && (CommandsOf(pairs, |pairs|) * LiveSlots(w) == {} || Exact(w, CommandsOf(pairs, |pairs|) * LiveSlots(w), {}))
  {
    if pairs == [] {
      return false;
    }
    var slots, reservations := LiveSlots(w), LiveReservations(w);
    var pairsOk, seen, retained := CheckPairs(pairs, EligiblePairs(w), slots);
    if !pairsOk {
      return false;
    }
    PairsLiveSize(pairs, |pairs|, EligiblePairs(w), slots);
    SelectionFits(w, pairs, []);
    CountsAreExact(w, CommandsOf(pairs, |pairs|) * slots, {});
    ok := retained == 0 || (|slots| == retained && |reservations| == retained);
  }

  lemma BatchMayRelease(u: World, w: World, pairs: seq<Pair>)
    requires Marked(u, w) && Fits(u, pairs, [])
    requires CommandsOf(pairs, |pairs|) * LiveSlots(u) == {} || Exact(u, CommandsOf(pairs, |pairs|) * LiveSlots(u), {})
    ensures CanReleaseLost(w, CommandsOf(pairs, |pairs|), {})
  {
    MarkedKeeps(u, w);
    PairsFitMeans(u, pairs, |pairs|);
    if CommandsOf(pairs, |pairs|) * LiveSlots(u) != {} {
      assert Ids([], 0) == {} && {} * LiveReservations(u) == {};
      ExactMayRelease(u, w, pairs, []);
    }
  }

  /** Releasing pairs that are all released already writes nothing. */
  lemma ReleaseNothing(w: World, pairs: set<CommandId>)
    requires forall c | c in pairs :: RecoverablePair(w, c) && c !in LiveSlots(w)
    ensures ReleaseAll(w, pairs, {}) == w
  {
    forall c | c in pairs ensures w.commands[c].slot.value.Released? {}
    assert ReleaseAll(w, pairs, {}).sessions == w.sessions;
    assert ReleaseAll(w, pairs, {}).commands == w.commands;
  }

  /** RecoverLostRuntimeBatch up to its release; a batch that is already released asks and writes nothing. */
  method RecoverBatch(s: Offline, pairs: seq<Pair>, answers: set<SessionId>) returns (ok: bool)
    requires Reachable(s.w)
    modifies s
    ensures Reachable(s.w)
    ensures ok && CommandsOf(pairs, |pairs|) * LiveSlots(old(s.w)) != {} ==>
              LiveSlots(s.w) == {} && LiveReservations(s.w) == {}
    ensures CommandsOf(pairs, |pairs|) * LiveSlots(old(s.w)) == {} ==> s.w == old(s.w)
    ensures !ok ==> Marked(old(s.w), s.w)
  {
    ok := CheckBatch(s.w, pairs);
    if !ok {
      return;
    }
    ok := ProveAll(s, pairs, [], answers);
    if !ok {
      return;
    }
    ghost var proved := s.w;
    var p := CommandsOf(pairs, |pairs|);
    assert Ids([], 0) == {};
    BatchMayRelease(old(s.w), s.w, pairs);
    ok := s.Step(ReleaseLost(p, {}));
    if ok {
      BatchOutcome(old(s.w), proved, pairs);
    }
  }

  lemma BatchOutcome(u: World, w: World, pairs: seq<Pair>)
    requires Marked(u, w) && Fits(u, pairs, [])
    requires CommandsOf(pairs, |pairs|) * LiveSlots(u) == {} || Exact(u, CommandsOf(pairs, |pairs|) * LiveSlots(u), {})
    ensures var p := CommandsOf(pairs, |pairs|); var v := ReleaseAll(w, p, {});
            if p * LiveSlots(u) == {} then v == w else LiveSlots(v) == {} && LiveReservations(v) == {}
  {
    var p := CommandsOf(pairs, |pairs|);
    MarkedKeeps(u, w);
    PairsFitMeans(u, pairs, |pairs|);
    if p * LiveSlots(u) == {} {
      ReleaseNothing(w, p);
    } else {
      assert Ids([], 0) == {} && {} * LiveReservations(u) == {};
      ExactMayRelease(u, w, pairs, []);
      ReleaseEmpties(w, p, {});
    }
  }
}
