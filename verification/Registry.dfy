/** Execution-context registries: validation that makes lookups total and unique on allowed pairs. */
module Registry {
  import opened Common

  const NUL: char := 0 as char

  /** A target as it is written in a document; nothing is known of the two strings yet. */
  datatype Target = Target(kind: string, profile: string)

  datatype Environment = Environment(name: string, targets: seq<Target>)

  datatype Context = Context(name: string, environment: string, target: Target)

  predicate NameChar(c: char) {
    'a' <= c <= 'z' || '0' <= c <= '9' || c == '-'
  }

  predicate ValidName(s: string) {
    0 < |s| <= 63 && 'a' <= s[0] <= 'z' && forall i | 0 <= i < |s| :: NameChar(s[i])
  }

  predicate Clean(s: string) {
    forall i | 0 <= i < |s| :: s[i] != NUL
  }

  predicate ValidTarget(t: Target, profiles: set<string>) {
    (t.kind == "local" && t.profile == "mac-workstation")
        || (t.kind == "remote" && t.profile in profiles && ValidName(t.profile))
  }

  // ---- pair keys ----

  function TargetKey(t: Target): string {
    t.kind + [NUL] + t.profile
  }

  function PairKey(environment: string, t: Target): string {
    environment + [NUL] + TargetKey(t)
  }

  lemma NamesAreClean(s: string)
    requires ValidName(s)
    ensures Clean(s)
  {
  }

  lemma TargetsAreClean(t: Target, profiles: set<string>)
    requires ValidTarget(t, profiles)
    ensures Clean(t.kind) && Clean(t.profile)
  {
    if t.kind == "remote" {
      NamesAreClean(t.profile);
    }
  }

  /** Two texts joined by NUL agree on their first parts when both are clean. */
  lemma FirstPart(a: string, b: string, c: string, d: string)
    requires Clean(a) && Clean(c) && a + [NUL] + b == c + [NUL] + d
    ensures a == c && b == d
  {
    var s := a + [NUL] + b;
    assert s[|a|] == NUL && s[|c|] == NUL;
    assert forall i | 0 <= i < |a| :: s[i] == a[i];
    assert forall i | 0 <= i < |c| :: s[i] == c[i];
    assert |a| == |c|;
    assert s[..|a|] == a && s[..|c|] == c;
    assert s[|a| + 1..] == b && s[|c| + 1..] == d;
  }

  /** When one side is clean throughout, equal target keys mean equal targets, whatever the other side holds. */
  lemma TargetKeyInjective(t: Target, u: Target)
    requires Clean(t.kind) && Clean(t.profile) && TargetKey(t) == TargetKey(u)
    ensures t == u
  {
    var s := TargetKey(t);
    assert s[|t.kind|] == NUL && s[|u.kind|] == NUL;
    assert forall i | 0 <= i < |t.kind| :: s[i] == t.kind[i];
    assert forall i | |t.kind| < i < |s| :: s[i] == t.profile[i - |t.kind| - 1];
    assert |u.kind| == |t.kind|;
    assert s[..|t.kind|] == t.kind && s[..|u.kind|] == u.kind;
    assert s[|t.kind| + 1..] == t.profile && s[|u.kind| + 1..] == u.profile;
  }

  /** Pair keys are unambiguous between a clean allowed pair and any context's pair. */
  lemma PairKeyInjective(e: string, t: Target, f: string, u: Target)
    requires Clean(e) && Clean(f) && Clean(t.kind) && Clean(t.profile)
    ensures PairKey(e, t) == PairKey(f, u) <==> e == f && t == u
  {
    if PairKey(e, t) == PairKey(f, u) {
      FirstPart(e, TargetKey(t), f, TargetKey(u));
      TargetKeyInjective(t, u);
    }
  }

  // ---- version 3: environments ----

  /** The keys of the first n targets of an environment. */
  function TargetKeys(e: Environment, n: nat): set<string>
    requires n <= |e.targets|
  {
    if n == 0 then {} else TargetKeys(e, n - 1) + {TargetKey(e.targets[n - 1])}
  }

  function EnvironmentPairs(e: Environment, n: nat): set<string>
    requires n <= |e.targets|
  {
    if n == 0 then {} else EnvironmentPairs(e, n - 1) + {PairKey(e.name, e.targets[n - 1])}
  }

  function Names(envs: seq<Environment>, n: nat): set<string>
    requires n <= |envs|
  {
    if n == 0 then {} else Names(envs, n - 1) + {envs[n - 1].name}
  }

  function AllPairs(envs: seq<Environment>, n: nat): set<string>
    requires n <= |envs|
  {
    if n == 0 then {} else AllPairs(envs, n - 1) + EnvironmentPairs(envs[n - 1], |envs[n - 1].targets|)
  }

  predicate TargetsFit(e: Environment, n: nat, profiles: set<string>)
    requires n <= |e.targets|
  {
    n > 0 ==>
      && TargetsFit(e, n - 1, profiles) && ValidTarget(e.targets[n - 1], profiles)
      && TargetKey(e.targets[n - 1]) !in TargetKeys(e, n - 1)
  }

  predicate EnvironmentsFit(envs: seq<Environment>, n: nat, profiles: set<string>)
    requires n <= |envs|
  {
    n > 0 ==>
      && EnvironmentsFit(envs, n - 1, profiles) && ValidName(envs[n - 1].name) && envs[n - 1].targets != []
      && envs[n - 1].name !in Names(envs, n - 1) && TargetsFit(envs[n - 1], |envs[n - 1].targets|, profiles)
  }

  lemma {:induction false} TargetsUnfit(e: Environment, i: nat, n: nat, profiles: set<string>)
    requires i <= n <= |e.targets| && !TargetsFit(e, i, profiles)
    ensures !TargetsFit(e, n, profiles)
    decreases n
  {
    if i < n {
      TargetsUnfit(e, i, n - 1, profiles);
    }
  }

  lemma {:induction false} EnvironmentsUnfit(envs: seq<Environment>, i: nat, n: nat, profiles: set<string>)
    requires i <= n <= |envs| && !EnvironmentsFit(envs, i, profiles)
    ensures !EnvironmentsFit(envs, n, profiles)
    decreases n
  {
    if i < n {
      EnvironmentsUnfit(envs, i, n - 1, profiles);
    }
  }

  /** The target loop of one environment. */
  method CheckTargets(e: Environment, profiles: set<string>) returns (ok: bool, pairs: set<string>)
    ensures ok == TargetsFit(e, |e.targets|, profiles)
    ensures ok ==> pairs == EnvironmentPairs(e, |e.targets|)
  {
    pairs := {};
    var seen: set<string> := {};
    for n := 0 to |e.targets|
      invariant TargetsFit(e, n, profiles) && seen == TargetKeys(e, n) && pairs == EnvironmentPairs(e, n)
    {
      var t := e.targets[n];
      if !ValidTarget(t, profiles) || TargetKey(t) in seen {
        TargetsUnfit(e, n + 1, |e.targets|, profiles);
        return false, pairs;
      }
      seen := seen + {TargetKey(t)};
      pairs := pairs + {PairKey(e.name, t)};
    }
    ok := true;
  }

  method CheckEnvironments(envs: seq<Environment>, profiles: set<string>)
    returns (ok: bool, names: set<string>, pairs: set<string>)
    ensures ok == EnvironmentsFit(envs, |envs|, profiles)
    ensures ok ==> names == Names(envs, |envs|) && pairs == AllPairs(envs, |envs|)
  {
    names, pairs := {}, {};
    for n := 0 to |envs|
      invariant EnvironmentsFit(envs, n, profiles) && names == Names(envs, n) && pairs == AllPairs(envs, n)
    {
      var e := envs[n];
      var fit, own := CheckTargets(e, profiles);
      if !ValidName(e.name) || e.targets == [] || e.name in names || !fit {
        EnvironmentsUnfit(envs, n + 1, |envs|, profiles);
        return false, names, pairs;
      }
      names := names + {e.name};
      pairs := pairs + own;
    }
    ok := true;
  }

  // ---- version 3: contexts ----

  function KeyOf(c: Context): string {
    PairKey(c.environment, c.target)
  }

  function ContextNames(cs: seq<Context>, n: nat): set<string>
    requires n <= |cs|
  {
    if n == 0 then {} else ContextNames(cs, n - 1) + {cs[n - 1].name}
  }

  function ContextKeys(cs: seq<Context>, n: nat): set<string>
    requires n <= |cs|
  {
    if n == 0 then {} else ContextKeys(cs, n - 1) + {KeyOf(cs[n - 1])}
  }

  predicate ContextsFit(cs: seq<Context>, n: nat, names: set<string>, pairs: set<string>)
    requires n <= |cs|
  {
    n > 0 ==>
      && ContextsFit(cs, n - 1, names, pairs) && ValidName(cs[n - 1].name) && cs[n - 1].name !in ContextNames(cs, n - 1)
      && cs[n - 1].environment in names && KeyOf(cs[n - 1]) in pairs && KeyOf(cs[n - 1]) !in ContextKeys(cs, n - 1)
  }

  lemma {:induction false} ContextsUnfit(cs: seq<Context>, i: nat, n: nat, names: set<string>, pairs: set<string>)
    requires i <= n <= |cs| && !ContextsFit(cs, i, names, pairs)
    ensures !ContextsFit(cs, n, names, pairs)
    decreases n
  {
    if i < n {
      ContextsUnfit(cs, i, n - 1, names, pairs);
    }
  }

  method CheckContexts(cs: seq<Context>, names: set<string>, pairs: set<string>) returns (ok: bool, keys: set<string>)
    ensures ok == ContextsFit(cs, |cs|, names, pairs)
    ensures ok ==> keys == ContextKeys(cs, |cs|)
  {
    keys := {};
    var seenNames: set<string> := {};
    for n := 0 to |cs|
      invariant ContextsFit(cs, n, names, pairs) && keys == ContextKeys(cs, n) && seenNames == ContextNames(cs, n)
    {
      var c := cs[n];
      if !ValidName(c.name) || c.name in seenNames || c.environment !in names || KeyOf(c) !in pairs
          || KeyOf(c) in keys {
        ContextsUnfit(cs, n + 1, |cs|, names, pairs);
        return false, keys;
      }
      seenNames := seenNames + {c.name};
      keys := keys + {KeyOf(c)};
    }
    ok := true;
  }

  // ---- version 3: contexts and allowed pairs correspond one to one ----

  predicate AllowsAt(envs: seq<Environment>, i: nat, j: nat, e: string, t: Target) {
    i < |envs| && j < |envs[i].targets| && envs[i].name == e && envs[i].targets[j] == t
  }

  ghost predicate Allows(envs: seq<Environment>, e: string, t: Target) {
    exists i: nat, j: nat :: AllowsAt(envs, i, j, e, t)
  }

  predicate ContextFor(c: Context, e: string, t: Target) {
    c.environment == e && c.target == t
  }

  ghost predicate HasContext(cs: seq<Context>, e: string, t: Target) {
    exists k :: 0 <= k < |cs| && ContextFor(cs[k], e, t)
  }

  /** Every context is for an allowed pair, no two contexts are for one pair, and no allowed pair lacks one. */
  ghost predicate OneToOne(envs: seq<Environment>, cs: seq<Context>) {
    && (forall k | 0 <= k < |cs| :: Allows(envs, cs[k].environment, cs[k].target))
    && (forall k, m | 0 <= k < m < |cs| :: !ContextFor(cs[k], cs[m].environment, cs[m].target))
    && (forall e, t | Allows(envs, e, t) :: HasContext(cs, e, t))
  }

  predicate NamesFit(cs: seq<Context>) {
    && (forall k | 0 <= k < |cs| :: ValidName(cs[k].name))
    && (forall k, m | 0 <= k < m < |cs| :: cs[k].name != cs[m].name)
  }

  lemma {:induction false} EnvironmentPairsMean(e: Environment, n: nat, key: string)
    requires n <= |e.targets|
    ensures key in EnvironmentPairs(e, n) <==> exists j :: 0 <= j < n && key == PairKey(e.name, e.targets[j])
  {
    if n > 0 {
      EnvironmentPairsMean(e, n - 1, key);
    }
  }

  lemma {:induction false} PairIsAllowed(envs: seq<Environment>, n: nat, key: string) returns (i: nat, j: nat)
    requires n <= |envs| && key in AllPairs(envs, n)
    ensures i < n && j < |envs[i].targets| && key == PairKey(envs[i].name, envs[i].targets[j])
  {
    EnvironmentPairsMean(envs[n - 1], |envs[n - 1].targets|, key);
    if key in EnvironmentPairs(envs[n - 1], |envs[n - 1].targets|) {
      i := n - 1;
      j :| 0 <= j < |envs[i].targets| && key == PairKey(envs[i].name, envs[i].targets[j]);
    } else {
      i, j := PairIsAllowed(envs, n - 1, key);
    }
  }

  lemma {:induction false} AllowedIsPair(envs: seq<Environment>, n: nat, i: nat, j: nat)
    requires i < n <= |envs| && j < |envs[i].targets|
    ensures PairKey(envs[i].name, envs[i].targets[j]) in AllPairs(envs, n)
  {
    if i == n - 1 {
      EnvironmentPairsMean(envs[i], |envs[i].targets|, PairKey(envs[i].name, envs[i].targets[j]));
    } else {
      AllowedIsPair(envs, n - 1, i, j);
    }
  }

  lemma {:induction false} TargetIsClean(e: Environment, n: nat, j: nat, profiles: set<string>)
    requires j < n <= |e.targets| && TargetsFit(e, n, profiles)
    ensures Clean(e.targets[j].kind) && Clean(e.targets[j].profile)
  {
    if j == n - 1 {
      TargetsAreClean(e.targets[j], profiles);
    } else {
      TargetIsClean(e, n - 1, j, profiles);
    }
  }

  lemma {:induction false} EnvironmentIsClean(envs: seq<Environment>, n: nat, i: nat, j: nat, profiles: set<string>)
    requires i < n <= |envs| && j < |envs[i].targets| && EnvironmentsFit(envs, n, profiles)
    ensures Clean(envs[i].name) && Clean(envs[i].targets[j].kind) && Clean(envs[i].targets[j].profile)
    ensures envs[i].name in Names(envs, n)
  {
    if i == n - 1 {
      NamesAreClean(envs[i].name);
      TargetIsClean(envs[i], |envs[i].targets|, j, profiles);
    } else {
      EnvironmentIsClean(envs, n - 1, i, j, profiles);
    }
  }

  lemma {:induction false} NameIsClean(envs: seq<Environment>, n: nat, e: string, profiles: set<string>)
    requires n <= |envs| && EnvironmentsFit(envs, n, profiles) && e in Names(envs, n)
    ensures Clean(e)
  {
    if e == envs[n - 1].name {
      NamesAreClean(e);
    } else {
      NameIsClean(envs, n - 1, e, profiles);
    }
  }

  lemma {:induction false} ContextKeysMean(cs: seq<Context>, n: nat, key: string)
    requires n <= |cs|
    ensures key in ContextKeys(cs, n) <==> exists k :: 0 <= k < n && key == KeyOf(cs[k])
  {
    if n > 0 {
      ContextKeysMean(cs, n - 1, key);
    }
  }

  lemma {:induction false} ContextNamesMean(cs: seq<Context>, n: nat, name: string)
    requires n <= |cs|
    ensures name in ContextNames(cs, n) <==> exists k :: 0 <= k < n && name == cs[k].name
  {
    if n > 0 {
      ContextNamesMean(cs, n - 1, name);
    }
  }

  /** What the context loop has established about each context. */
  lemma {:induction false} FitContext(cs: seq<Context>, n: nat, names: set<string>, pairs: set<string>, k: nat)
    requires k < n <= |cs| && ContextsFit(cs, n, names, pairs)
    ensures ValidName(cs[k].name) && cs[k].environment in names && KeyOf(cs[k]) in pairs
    ensures forall m | 0 <= m < k :: cs[m].name != cs[k].name && KeyOf(cs[m]) != KeyOf(cs[k])
  {
    if k == n - 1 {
      ContextKeysMean(cs, k, KeyOf(cs[k]));
      ContextNamesMean(cs, k, cs[k].name);
    } else {
      FitContext(cs, n - 1, names, pairs, k);
    }
  }

  /** A context's key is an allowed key exactly when its pair is allowed. */
  lemma KeyIffAllowed(envs: seq<Environment>, profiles: set<string>, c: Context)
    requires EnvironmentsFit(envs, |envs|, profiles)
    ensures c.environment in Names(envs, |envs|) && KeyOf(c) in AllPairs(envs, |envs|) <==>
              Allows(envs, c.environment, c.target)
  {
    if c.environment in Names(envs, |envs|) && KeyOf(c) in AllPairs(envs, |envs|) {
      var i, j := PairIsAllowed(envs, |envs|, KeyOf(c));
      EnvironmentIsClean(envs, |envs|, i, j, profiles);
      NameIsClean(envs, |envs|, c.environment, profiles);
      PairKeyInjective(envs[i].name, envs[i].targets[j], c.environment, c.target);
      assert AllowsAt(envs, i, j, c.environment, c.target);
    }
    if Allows(envs, c.environment, c.target) {
      var i: nat, j: nat :| AllowsAt(envs, i, j, c.environment, c.target);
      AllowedIsPair(envs, |envs|, i, j);
      EnvironmentIsClean(envs, |envs|, i, j, profiles);
    }
  }

  lemma SameKeySamePair(envs: seq<Environment>, profiles: set<string>, c: Context, d: Context)
    requires EnvironmentsFit(envs, |envs|, profiles) && Allows(envs, c.environment, c.target)
             && Allows(envs, d.environment, d.target)
    ensures KeyOf(c) == KeyOf(d) <==> ContextFor(c, d.environment, d.target)
  {
    var i: nat, j: nat :| AllowsAt(envs, i, j, c.environment, c.target);
    var k: nat, m: nat :| AllowsAt(envs, k, m, d.environment, d.target);
    EnvironmentIsClean(envs, |envs|, i, j, profiles);
    EnvironmentIsClean(envs, |envs|, k, m, profiles);
    PairKeyInjective(c.environment, c.target, d.environment, d.target);
  }

  lemma {:induction false} KeysWithin(cs: seq<Context>, n: nat, names: set<string>, pairs: set<string>)
    requires n <= |cs| && ContextsFit(cs, n, names, pairs)
    ensures ContextKeys(cs, n) <= pairs
  {
    if n > 0 {
      KeysWithin(cs, n - 1, names, pairs);
    }
  }

  /** Passing the loops with equal counts means that contexts and allowed pairs correspond one to one. */
  lemma CountedIsOneToOne(envs: seq<Environment>, cs: seq<Context>, profiles: set<string>)
    requires EnvironmentsFit(envs, |envs|, profiles)
    requires ContextsFit(cs, |cs|, Names(envs, |envs|), AllPairs(envs, |envs|))
    requires |ContextKeys(cs, |cs|)| == |AllPairs(envs, |envs|)|
    ensures NamesFit(cs) && OneToOne(envs, cs)
  {
    var names, pairs := Names(envs, |envs|), AllPairs(envs, |envs|);
    forall k | 0 <= k < |cs|
      ensures ValidName(cs[k].name) && Allows(envs, cs[k].environment, cs[k].target)
      ensures forall m | 0 <= m < k :: cs[m].name != cs[k].name && KeyOf(cs[m]) != KeyOf(cs[k])
    {
      FitContext(cs, |cs|, names, pairs, k);
      KeyIffAllowed(envs, profiles, cs[k]);
    }
    forall k, m | 0 <= k < m < |cs| ensures !ContextFor(cs[k], cs[m].environment, cs[m].target) {
      SameKeySamePair(envs, profiles, cs[k], cs[m]);
    }
    KeysWithin(cs, |cs|, names, pairs);
    SubsetSize(ContextKeys(cs, |cs|), pairs);
    forall e, t | Allows(envs, e, t) ensures HasContext(cs, e, t) {
      AllowedHasContext(envs, cs, profiles, e, t);
    }
  }

  lemma AllowedHasContext(envs: seq<Environment>, cs: seq<Context>, profiles: set<string>, e: string, t: Target)
    requires EnvironmentsFit(envs, |envs|, profiles) && ContextKeys(cs, |cs|) == AllPairs(envs, |envs|)
    requires forall k | 0 <= k < |cs| :: Allows(envs, cs[k].environment, cs[k].target)
    requires Allows(envs, e, t)
    ensures HasContext(cs, e, t)
  {
    var probe := Context("", e, t);
    KeyIffAllowed(envs, profiles, probe);
    ContextKeysMean(cs, |cs|, KeyOf(probe));
    var k :| 0 <= k < |cs| && KeyOf(probe) == KeyOf(cs[k]);
    SameKeySamePair(envs, profiles, probe, cs[k]);
    assert ContextFor(cs[k], e, t);
  }

  /** Conversely, nothing that corresponds one to one is refused. */
  lemma {:induction false} OneToOneFits(envs: seq<Environment>, cs: seq<Context>, n: nat, profiles: set<string>)
    requires EnvironmentsFit(envs, |envs|, profiles) && NamesFit(cs) && OneToOne(envs, cs) && n <= |cs|
    ensures ContextsFit(cs, n, Names(envs, |envs|), AllPairs(envs, |envs|))
  {
    if n > 0 {
      var c := cs[n - 1];
      OneToOneFits(envs, cs, n - 1, profiles);
      KeyIffAllowed(envs, profiles, c);
      ContextKeysMean(cs, n - 1, KeyOf(c));
      ContextNamesMean(cs, n - 1, c.name);
      forall k | 0 <= k < n - 1 ensures KeyOf(cs[k]) != KeyOf(c) {
        SameKeySamePair(envs, profiles, cs[k], c);
      }
    }
  }

  lemma OneToOneCounts(envs: seq<Environment>, cs: seq<Context>, profiles: set<string>)
    requires EnvironmentsFit(envs, |envs|, profiles) && OneToOne(envs, cs)
    ensures ContextKeys(cs, |cs|) == AllPairs(envs, |envs|)
  {
    forall key ensures key in ContextKeys(cs, |cs|) <==> key in AllPairs(envs, |envs|) {
      ContextKeysMean(cs, |cs|, key);
      if k :| 0 <= k < |cs| && key == KeyOf(cs[k]) {
        KeyIffAllowed(envs, profiles, cs[k]);
      }
      if key in AllPairs(envs, |envs|) {
        var i, j := PairIsAllowed(envs, |envs|, key);
        assert AllowsAt(envs, i, j, envs[i].name, envs[i].targets[j]);
        assert HasContext(cs, envs[i].name, envs[i].targets[j]);
      }
    }
  }

  /** validateV3EnvironmentsAndContextsWith, as far as environments, targets and contexts go. */
  method ValidateRegistry(envs: seq<Environment>, cs: seq<Context>, profiles: set<string>) returns (ok: bool)
    ensures ok <==>
      && envs != [] && cs != [] && EnvironmentsFit(envs, |envs|, profiles) && NamesFit(cs) && OneToOne(envs, cs)
  {
    if envs == [] || cs == [] {
      return false;
    }
    var fit, names, pairs := CheckEnvironments(envs, profiles);
    if !fit {
      return false;
    }
    var listed, keys := CheckContexts(cs, names, pairs);
    ok := listed && |keys| == |pairs|;
    if ok {
      CountedIsOneToOne(envs, cs, profiles);
    } else if NamesFit(cs) && OneToOne(envs, cs) {
      OneToOneFits(envs, cs, |cs|, profiles);
      OneToOneCounts(envs, cs, profiles);
    }
  }

  /** Resolve: the first context of the pair. */
  method Resolve(cs: seq<Context>, e: string, t: Target) returns (found: Option<Context>)
    ensures found.Some? <==> HasContext(cs, e, t)
    ensures found.Some? ==> ContextFor(found.value, e, t) && found.value in cs
  {
    for n := 0 to |cs|
      invariant forall k | 0 <= k < n :: !ContextFor(cs[k], e, t)
    {
      if ContextFor(cs[n], e, t) {
        return Some(cs[n]);
      }
    }
    found := None;
  }

  /** A registry is validated when it is loaded and resolved afterwards: resolution then succeeds on exactly
      the allowed pairs, and its answer is the only context of the pair. */
  method ValidateThenResolve(envs: seq<Environment>, cs: seq<Context>, profiles: set<string>, e: string, t: Target)
    returns (valid: bool, found: Option<Context>)
    ensures valid ==> (found.Some? <==> Allows(envs, e, t))
    ensures valid && found.Some? ==> ContextFor(found.value, e, t)
    ensures valid && found.Some? ==>
              exists j :: 0 <= j < |cs| && cs[j] == found.value
                          && forall k | 0 <= k < |cs| && k != j :: !ContextFor(cs[k], e, t)
    ensures valid <==>
      && envs != [] && cs != [] && EnvironmentsFit(envs, |envs|, profiles) && NamesFit(cs) && OneToOne(envs, cs)
  {
    found := None;
    valid := ValidateRegistry(envs, cs, profiles);
    if valid {
      found := Resolve(cs, e, t);
    }
  }
}
