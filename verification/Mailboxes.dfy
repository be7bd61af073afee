/** The version 2 registries: contexts and mailboxes held in unordered maps.  An iteration order is any
    list of the keys, each once. */
module Mailboxes {
  import opened Common
  import opened Registry

  datatype ContextDocument = ContextDocument(environment: string, target: Target)

  /** An environment's allowed targets, and whether its account is the Mac's or the remote one. */
  datatype EnvironmentDocument = EnvironmentDocument(targets: seq<Target>, macAccount: bool)

  /** A remote host; only some have a queued bridge. */
  datatype Host = Host(queuedBridge: bool)

  datatype Mailbox = Mailbox(aliases: seq<string>, allowed: seq<string>, fallback: string)

  datatype Config = Config(contexts: map<string, Context>, mailboxes: map<string, Mailbox>, hosts: map<string, Host>)

  ghost predicate Orders<V>(order: seq<string>, m: map<string, V>) {
    && (forall name :: name in order <==> name in m)
    && (forall i, j | 0 <= i < j < |order| :: order[i] != order[j])
  }

  // ---- execution contexts ----

  /** validateExecutionContext. */
  predicate ContextFits(name: string, d: ContextDocument, envs: map<string, EnvironmentDocument>,
                        hosts: map<string, Host>) {
    && ValidName(name) && ValidName(d.environment) && ValidName(d.target.profile)
    && d.environment in envs && d.target in envs[d.environment].targets
    && ((d.target.kind == "local" && d.target.profile == "mac-workstation" && envs[d.environment].macAccount)
        || (d.target.kind == "remote" && !envs[d.environment].macAccount && d.target.profile in hosts))
  }

  function ContextOf(name: string, d: ContextDocument): Context {
    Context(name, d.environment, d.target)
  }

  function Contexts(docs: map<string, ContextDocument>): map<string, Context> {
    map name | name in docs :: ContextOf(name, docs[name])
  }

  predicate SamePair(c: Context, d: Context) {
    c.environment == d.environment && c.target == d.target
  }

  predicate DistinctPairs(contexts: map<string, Context>) {
    forall a, b | a in contexts && b in contexts && a != b :: !SamePair(contexts[a], contexts[b])
  }

  lemma FittingKeys(a: string, c: ContextDocument, b: string, d: ContextDocument,
                    envs: map<string, EnvironmentDocument>, hosts: map<string, Host>)
    requires ContextFits(a, c, envs, hosts) && ContextFits(b, d, envs, hosts)
    ensures KeyOf(ContextOf(a, c)) == KeyOf(ContextOf(b, d)) <==> SamePair(ContextOf(a, c), ContextOf(b, d))
  {
    NamesAreClean(c.environment);
    NamesAreClean(d.environment);
    NamesAreClean(c.target.profile);
    PairKeyInjective(c.environment, c.target, d.environment, d.target);
  }

  predicate AllFit(docs: map<string, ContextDocument>, envs: map<string, EnvironmentDocument>,
                   hosts: map<string, Host>) {
    forall name | name in docs :: ContextFits(name, docs[name], envs, hosts)
  }

  ghost predicate Listed(order: seq<string>, docs: map<string, ContextDocument>) {
    forall k | 0 <= k < |order| :: order[k] in docs
  }

  /** The keys of the first n documents in this order. */
  ghost function PairsOf(docs: map<string, ContextDocument>, order: seq<string>, n: nat): set<string>
    requires n <= |order| && Listed(order, docs)
  {
    if n == 0 then {} else PairsOf(docs, order, n - 1) + {KeyOf(ContextOf(order[n - 1], docs[order[n - 1]]))}
  }

  ghost function ContextsOf(docs: map<string, ContextDocument>, order: seq<string>, n: nat): map<string, Context>
    requires n <= |order| && Listed(order, docs)
  {
    if n == 0 then map[] else
      ContextsOf(docs, order, n - 1)[order[n - 1] := ContextOf(order[n - 1], docs[order[n - 1]])]
  }

  ghost predicate DocumentsFit(docs: map<string, ContextDocument>, order: seq<string>, n: nat,
                               envs: map<string, EnvironmentDocument>, hosts: map<string, Host>)
    requires n <= |order| && Listed(order, docs)
  {
    n > 0 ==>
      && DocumentsFit(docs, order, n - 1, envs, hosts) && ContextFits(order[n - 1], docs[order[n - 1]], envs, hosts)
      && KeyOf(ContextOf(order[n - 1], docs[order[n - 1]])) !in PairsOf(docs, order, n - 1)
  }

  lemma {:induction false} DocumentsUnfit(docs: map<string, ContextDocument>, order: seq<string>, i: nat, n: nat,
                                          envs: map<string, EnvironmentDocument>, hosts: map<string, Host>)
    requires i <= n <= |order| && Listed(order, docs) && !DocumentsFit(docs, order, i, envs, hosts)
    ensures !DocumentsFit(docs, order, n, envs, hosts)
    decreases n
  {
    if i < n {
      DocumentsUnfit(docs, order, i, n - 1, envs, hosts);
    }
  }

  lemma {:induction false} PairsOfMean(docs: map<string, ContextDocument>, order: seq<string>, n: nat, key: string)
    requires n <= |order| && Listed(order, docs)
    ensures key in PairsOf(docs, order, n) <==>
              exists k :: 0 <= k < n && key == KeyOf(ContextOf(order[k], docs[order[k]]))
  {
    if n > 0 {
      PairsOfMean(docs, order, n - 1, key);
    }
  }

  lemma {:induction false} ContextsOfMean(docs: map<string, ContextDocument>, order: seq<string>, n: nat, name: string)
    requires n <= |order| && Listed(order, docs)
    ensures name in ContextsOf(docs, order, n) <==> exists k :: 0 <= k < n && order[k] == name
    ensures name in ContextsOf(docs, order, n) ==>
              name in docs && ContextsOf(docs, order, n)[name] == ContextOf(name, docs[name])
  {
    if n > 0 {
      ContextsOfMean(docs, order, n - 1, name);
    }
  }

  lemma WholeOrder(docs: map<string, ContextDocument>, order: seq<string>)
    requires Orders(order, docs) && Listed(order, docs)
    ensures ContextsOf(docs, order, |order|) == Contexts(docs)
  {
    forall name
      ensures name in ContextsOf(docs, order, |order|) <==> name in docs
      ensures name in ContextsOf(docs, order, |order|) ==>
                ContextsOf(docs, order, |order|)[name] == ContextOf(name, docs[name])
    {
      ContextsOfMean(docs, order, |order|, name);
      if name in docs {
        assert name in order;
      }
    }
    assert ContextsOf(docs, order, |order|).Keys == docs.Keys;
  }

  lemma {:induction false} FitDocument(docs: map<string, ContextDocument>, order: seq<string>, n: nat, k: nat,
                                       envs: map<string, EnvironmentDocument>, hosts: map<string, Host>)
    requires k < n <= |order| && Listed(order, docs) && DocumentsFit(docs, order, n, envs, hosts)
    ensures ContextFits(order[k], docs[order[k]], envs, hosts)
    ensures forall j | 0 <= j < k ::
              KeyOf(ContextOf(order[j], docs[order[j]])) != KeyOf(ContextOf(order[k], docs[order[k]]))
  {
    if k == n - 1 {
      PairsOfMean(docs, order, k, KeyOf(ContextOf(order[k], docs[order[k]])));
    } else {
      FitDocument(docs, order, n - 1, k, envs, hosts);
    }
  }

  /** Whatever the order, the loop accepts exactly fitting documents with distinct pairs. */
  lemma FitInAnyOrder(docs: map<string, ContextDocument>, order: seq<string>, envs: map<string, EnvironmentDocument>,
                      hosts: map<string, Host>)
    requires Orders(order, docs) && Listed(order, docs)
    ensures DocumentsFit(docs, order, |order|, envs, hosts) <==>
              AllFit(docs, envs, hosts) && DistinctPairs(Contexts(docs))
  {
    if DocumentsFit(docs, order, |order|, envs, hosts) {
      FitIsDistinct(docs, order, envs, hosts);
    }
    if AllFit(docs, envs, hosts) && DistinctPairs(Contexts(docs)) {
      DistinctIsFit(docs, order, |order|, envs, hosts);
    }
  }

  lemma FitIsDistinct(docs: map<string, ContextDocument>, order: seq<string>, envs: map<string, EnvironmentDocument>,
                      hosts: map<string, Host>)
    requires Orders(order, docs) && Listed(order, docs) && DocumentsFit(docs, order, |order|, envs, hosts)
    ensures AllFit(docs, envs, hosts) && DistinctPairs(Contexts(docs))
  {
    forall name | name in docs ensures ContextFits(name, docs[name], envs, hosts) {
      assert name in order;
      var k :| 0 <= k < |order| && order[k] == name;
      FitDocument(docs, order, |order|, k, envs, hosts);
    }
    forall a, b | a in docs && b in docs && a != b ensures !SamePair(ContextOf(a, docs[a]), ContextOf(b, docs[b])) {
      assert a in order && b in order;
      var j :| 0 <= j < |order| && order[j] == a;
      var k :| 0 <= k < |order| && order[k] == b;
      FitDocument(docs, order, |order|, if j < k then k else j, envs, hosts);
      FittingKeys(a, docs[a], b, docs[b], envs, hosts);
    }
  }

  lemma {:induction false} DistinctIsFit(docs: map<string, ContextDocument>, order: seq<string>, n: nat,
                                         envs: map<string, EnvironmentDocument>, hosts: map<string, Host>)
    requires Orders(order, docs) && Listed(order, docs) && n <= |order|
    requires AllFit(docs, envs, hosts) && DistinctPairs(Contexts(docs))
    ensures DocumentsFit(docs, order, n, envs, hosts)
  {
    if n > 0 {
      DistinctIsFit(docs, order, n - 1, envs, hosts);
      var b := order[n - 1];
      PairsOfMean(docs, order, n - 1, KeyOf(ContextOf(b, docs[b])));
      forall j | 0 <= j < n - 1 ensures KeyOf(ContextOf(order[j], docs[order[j]])) != KeyOf(ContextOf(b, docs[b])) {
        FittingKeys(order[j], docs[order[j]], b, docs[b], envs, hosts);
        assert !SamePair(Contexts(docs)[order[j]], Contexts(docs)[b]);
      }
    }
  }

  lemma OrderedAreIn<V>(order: seq<string>, m: map<string, V>)
    requires Orders(order, m)
    ensures forall k | 0 <= k < |order| :: order[k] in m
  {
    forall k | 0 <= k < |order| ensures order[k] in m {
      assert order[k] in order;
    }
  }

  /** The context loop of populateV2MacRegistries. */
  method PopulateInOrder(docs: map<string, ContextDocument>, order: seq<string>, envs: map<string, EnvironmentDocument>,
                         hosts: map<string, Host>)
    returns (ok: bool, contexts: map<string, Context>)
    requires Listed(order, docs)
    ensures ok == DocumentsFit(docs, order, |order|, envs, hosts)
    ensures ok ==> contexts == ContextsOf(docs, order, |order|)
  {
    contexts := map[];
    var pairs: set<string> := {};
    for n := 0 to |order|
      invariant DocumentsFit(docs, order, n, envs, hosts)
      invariant pairs == PairsOf(docs, order, n) && contexts == ContextsOf(docs, order, n)
    {
      var name := order[n];
      var context := ContextOf(name, docs[name]);
      if !ContextFits(name, docs[name], envs, hosts) || KeyOf(context) in pairs {
        DocumentsUnfit(docs, order, n + 1, |order|, envs, hosts);
        return false, contexts;
      }
      pairs := pairs + {KeyOf(context)};
      contexts := contexts[name := context];
    }
    ok := true;
  }

  /** Its verdict and its result do not depend on the order in which the map is visited. */
  method PopulateContexts(docs: map<string, ContextDocument>, order: seq<string>,
                          envs: map<string, EnvironmentDocument>, hosts: map<string, Host>)
    returns (ok: bool, contexts: map<string, Context>)
    requires Orders(order, docs)
    ensures ok <==> AllFit(docs, envs, hosts) && DistinctPairs(Contexts(docs))
    ensures ok ==> contexts == Contexts(docs)
  {
    OrderedAreIn(order, docs);
    FitInAnyOrder(docs, order, envs, hosts);
    WholeOrder(docs, order);
    ok, contexts := PopulateInOrder(docs, order, envs, hosts);
  }

  /** ExecutionContextFor: the first match in whatever order the map is visited. */
  method ExecutionContextFor(contexts: map<string, Context>, order: seq<string>, e: string, t: Target)
    returns (found: Option<Context>)
    requires Orders(order, contexts)
    ensures found.Some? ==>
              exists name :: name in contexts && contexts[name] == found.value && ContextFor(found.value, e, t)
    ensures found.None? ==> forall name | name in contexts :: !ContextFor(contexts[name], e, t)
    ensures DistinctPairs(contexts) ==>
              forall name | name in contexts && ContextFor(contexts[name], e, t) :: found == Some(contexts[name])
  {
    OrderedAreIn(order, contexts);
    for n := 0 to |order|
      invariant forall k | 0 <= k < n :: !ContextFor(contexts[order[k]], e, t)
    {
      if ContextFor(contexts[order[n]], e, t) {
        found := Some(contexts[order[n]]);
        forall name | DistinctPairs(contexts) && name in contexts && ContextFor(contexts[name], e, t)
          ensures name == order[n] {
          assert name != order[n] ==> !SamePair(contexts[name], contexts[order[n]]);
        }
        return;
      }
    }
    found := None;
    forall name | name in contexts ensures !ContextFor(contexts[name], e, t) {
      assert name in order;
    }
  }

  // ---- mailboxes ----

  /** A context a mailbox may use: remote work needs a queued bridge. */
  predicate Usable(contexts: map<string, Context>, hosts: map<string, Host>, name: string) {
    && name in contexts && ValidName(name)
    && (contexts[name].target.kind == "remote" ==>
          contexts[name].target.profile in hosts && hosts[contexts[name].target.profile].queuedBridge)
  }

  predicate Distinct(q: seq<string>) {
    forall i, j | 0 <= i < j < |q| :: q[i] != q[j]
  }

  predicate MailboxFits(m: Mailbox, contexts: map<string, Context>, hosts: map<string, Host>) {
    && m.allowed != [] && ValidName(m.fallback) && m.fallback in m.allowed
    && Distinct(m.allowed) && (forall i | 0 <= i < |m.allowed| :: Usable(contexts, hosts, m.allowed[i]))
    && Distinct(m.aliases) && (forall i | 0 <= i < |m.aliases| :: ValidName(m.aliases[i]))
  }

  method CheckAliases(aliases: seq<string>) returns (ok: bool)
    ensures ok <==> Distinct(aliases) && forall i | 0 <= i < |aliases| :: ValidName(aliases[i])
  {
    var seen: set<string> := {};
    for n := 0 to |aliases|
      invariant seen == Elements(aliases, n) && (forall i | 0 <= i < n :: ValidName(aliases[i]))
      invariant forall i, j | 0 <= i < j < n :: aliases[i] != aliases[j]
    {
      ElementsMean(aliases, n);
      if !ValidName(aliases[n]) || aliases[n] in seen {
        return false;
      }
      seen := seen + {aliases[n]};
    }
    ok := true;
  }

  /** The allow-list loop: every name usable and once, the default among them. */
  method CheckAllowed(allowed: seq<string>, fallback: string, usable: set<string>) returns (ok: bool)
    ensures ok <==> Distinct(allowed) && (forall i | 0 <= i < |allowed| :: allowed[i] in usable) && fallback in allowed
  {
    var seen: set<string> := {};
    var defaultAllowed := false;
    for n := 0 to |allowed|
      invariant seen == Elements(allowed, n) && (forall i | 0 <= i < n :: allowed[i] in usable)
      invariant forall i, j | 0 <= i < j < n :: allowed[i] != allowed[j]
      invariant defaultAllowed <==> fallback in Elements(allowed, n)
    {
      ElementsMean(allowed, n);
      if allowed[n] !in usable || allowed[n] in seen {
        return false;
      }
      seen := seen + {allowed[n]};
      defaultAllowed := defaultAllowed || allowed[n] == fallback;
    }
    ElementsMean(allowed, |allowed|);
    ok := defaultAllowed;
  }

  /** validateMailboxDefinition without the root path. */
  method ValidateMailbox(m: Mailbox, contexts: map<string, Context>, hosts: map<string, Host>) returns (ok: bool)
    ensures ok <==> MailboxFits(m, contexts, hosts)
  {
    if m.allowed == [] || !ValidName(m.fallback) {
      return false;
    }
    ok := CheckAliases(m.aliases);
    if ok {
      ok := CheckAllowed(m.allowed, m.fallback, set name | name in contexts && Usable(contexts, hosts, name));
    }
  }

  function Elements(q: seq<string>, n: nat): set<string>
    requires n <= |q|
  {
    if n == 0 then {} else Elements(q, n - 1) + {q[n - 1]}
  }

  lemma {:induction false} ElementsMean(q: seq<string>, n: nat)
    requires n <= |q|
    ensures forall x :: x in Elements(q, n) <==> exists i :: 0 <= i < n && q[i] == x
  {
    if n > 0 {
      ElementsMean(q, n - 1);
    }
  }

  datatype Request = Request(environment: Option<string>, target: Option<Target>, alias: string)

  datatype Selection =
    | UnknownMailbox
    | AliasNotAllowed
    | PairRequired
    | ContextNotFound
    | ContextNotAllowed
    | Selected(context: Context, fromDefault: bool)

  /** The names of the contexts are the keys they are stored under. */
  predicate Named(contexts: map<string, Context>) {
    forall name | name in contexts :: contexts[name].name == name
  }

  /** A configuration that passed validation. */
  predicate Validated(c: Config) {
    && Named(c.contexts) && DistinctPairs(c.contexts)
    && forall id | id in c.mailboxes :: MailboxFits(c.mailboxes[id], c.contexts, c.hosts)
  }

  /** ResolveMailboxExecution.  Whatever is selected is on this mailbox's allow-list and usable by it; a
      request for the default always gets it; an explicit pair gets its own context or an error. */
  method ResolveMailboxExecution(c: Config, id: string, request: Request, order: seq<string>) returns (s: Selection)
    requires Validated(c) && Orders(order, c.contexts)
    ensures s.Selected? ==>
              id in c.mailboxes && s.context.name in c.mailboxes[id].allowed && s.context.name in c.contexts
                            && c.contexts[s.context.name] == s.context && Usable(c.contexts, c.hosts, s.context.name)
    ensures id in c.mailboxes && (request.alias == "" || request.alias in c.mailboxes[id].aliases)
            && request.environment.None? && request.target.None? ==>
              s == Selected(c.contexts[c.mailboxes[id].fallback], true)
    ensures s.Selected? && !s.fromDefault ==>
              request.environment == Some(s.context.environment) && request.target == Some(s.context.target)
    ensures s.ContextNotFound? ==>
              && request.environment.Some? && request.target.Some?
              && forall name | name in c.contexts ::
                    !ContextFor(c.contexts[name], request.environment.value, request.target.value)
    ensures s.PairRequired? ==> request.environment.Some? != request.target.Some?
  {
    if id !in c.mailboxes {
      return UnknownMailbox;
    }
    var m := c.mailboxes[id];
    assert MailboxFits(m, c.contexts, c.hosts);
    if request.alias != "" && request.alias !in m.aliases {
      return AliasNotAllowed;
    }
    if request.environment.Some? != request.target.Some? {
      return PairRequired;
    }
    if request.environment.None? {
      AllowedIsUsable(m, c.contexts, c.hosts, m.fallback);
      return Selected(c.contexts[m.fallback], true);
    }
    var found := ExecutionContextFor(c.contexts, order, request.environment.value, request.target.value);
    if found.None? {
      return ContextNotFound;
    }
    if found.value.name !in m.allowed {
      return ContextNotAllowed;
    }
    AllowedIsUsable(m, c.contexts, c.hosts, found.value.name);
    s := Selected(found.value, false);
  }

  lemma AllowedIsUsable(m: Mailbox, contexts: map<string, Context>, hosts: map<string, Host>, name: string)
    requires MailboxFits(m, contexts, hosts) && name in m.allowed
    ensures Usable(contexts, hosts, name)
  {
    var i :| 0 <= i < |m.allowed| && m.allowed[i] == name;
  }
}
