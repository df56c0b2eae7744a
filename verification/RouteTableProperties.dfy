/** What the built table says about its sources, and that list order does not matter
    as long as nobody disagrees. */
module RouteTableProperties {
  import opened Definitions
  import opened Kubernetes
  import opened RouteTable
  import opened Strings
  import opened Wrappers

  // ---------- The table in terms of services and definitions

  ghost predicate Serves(svc: Service, key: WorkflowKey, defs: map<string, CatalogDef>, valid: URL -> bool) {
    && svc.url != "" && valid(svc.url)
    && exists name :: References(svc, name) && NameKey(svc.namespace, name) in defs
                      && KeyFromLabels(defs[NameKey(svc.namespace, name)]) == Some(key)
  }

  predicate RunsAt(def: CatalogDef, key: WorkflowKey) {
    KeyFromLabels(def) == Some(key) && def.runtimeRef != ""
  }

  lemma {:induction false} FirstWinsConcat(a: seq<Claim>, b: seq<Claim>)
    ensures FirstWins(a + b) == FirstWins(b) + FirstWins(a)
    decreases |b|
  {
    if b == [] {
      assert a + b == a;
    } else {
      var front := b[..|b| - 1];
      assert (a + b)[..|a + b| - 1] == a + front;
      FirstWinsConcat(a, front);
    }
  }

  lemma {:induction false} NameClaimsMember(svc: Service, names: seq<string>, defs: map<string, CatalogDef>, c: Claim)
    ensures c in NameClaims(svc, names, defs) <==>
            c.url == svc.url && exists name :: name in names && NameKey(svc.namespace, name) in defs
                                               && KeyFromLabels(defs[NameKey(svc.namespace, name)]) == Some(c.key)
    decreases |names|
  {
    if names != [] {
      var front := names[..|names| - 1];
      NameClaimsMember(svc, front, defs, c);
      assert names == front + [names[|names| - 1]];
    }
  }

  lemma OneServiceRoute(svc: Service, defs: map<string, CatalogDef>, valid: URL -> bool, key: WorkflowKey)
    ensures key in FirstWins(OneServiceClaims(svc, defs, valid)) <==> Serves(svc, key, defs, valid)
    ensures Serves(svc, key, defs, valid) ==> FirstWins(OneServiceClaims(svc, defs, valid))[key] == svc.url
  {
    var claims := OneServiceClaims(svc, defs, valid);
    FirstWinsMeaning(claims, key);
    forall c
      ensures c in claims <==> c.url == svc.url && Serves(svc, c.key, defs, valid)
    {
      NameClaimsMember(svc, ReferencedNames(svc), defs, c);
      forall name
        ensures name in ReferencedNames(svc) <==> References(svc, name)
      {
        ReferencedNamesMember(svc, name);
      }
    }
    if Serves(svc, key, defs, valid) {
      assert Claim(key, svc.url) in claims;
    }
  }

  ghost predicate FirstServing(svcs: seq<Service>, i: int, key: WorkflowKey, defs: map<string, CatalogDef>,
                               valid: URL -> bool)
  {
    0 <= i < |svcs| && Serves(svcs[i], key, defs, valid)
    && forall j | 0 <= j < i :: !Serves(svcs[j], key, defs, valid)
  }

  ghost predicate SomeServes(svcs: seq<Service>, key: WorkflowKey, defs: map<string, CatalogDef>, valid: URL -> bool) {
    exists i :: 0 <= i < |svcs| && Serves(svcs[i], key, defs, valid)
  }

  lemma SomeServesSnoc(svcs: seq<Service>, key: WorkflowKey, defs: map<string, CatalogDef>, valid: URL -> bool)
    requires svcs != []
    ensures SomeServes(svcs, key, defs, valid) <==>
            SomeServes(svcs[..|svcs| - 1], key, defs, valid) || Serves(svcs[|svcs| - 1], key, defs, valid)
  {
  }

  /** The table of a list is that of its front, and the last service's where that is open. */
  lemma ServiceTableSnoc(svcs: seq<Service>, defs: map<string, CatalogDef>, valid: URL -> bool)
    requires svcs != []
    ensures FirstWins(ServiceClaims(svcs, defs, valid))
            == FirstWins(OneServiceClaims(svcs[|svcs| - 1], defs, valid))
               + FirstWins(ServiceClaims(svcs[..|svcs| - 1], defs, valid))
  {
    FirstWinsConcat(ServiceClaims(svcs[..|svcs| - 1], defs, valid), OneServiceClaims(svcs[|svcs| - 1], defs, valid));
  }

  lemma {:induction false} ServiceRouteExists(svcs: seq<Service>, defs: map<string, CatalogDef>, valid: URL -> bool,
                                              key: WorkflowKey)
    ensures key in FirstWins(ServiceClaims(svcs, defs, valid)) <==> SomeServes(svcs, key, defs, valid)
    decreases |svcs|
  {
    if svcs != [] {
      ServiceRouteExists(svcs[..|svcs| - 1], defs, valid, key);
      OneServiceRoute(svcs[|svcs| - 1], defs, valid, key);
      ServiceTableSnoc(svcs, defs, valid);
      SomeServesSnoc(svcs, key, defs, valid);
    }
  }

  lemma ServedByLast(svcs: seq<Service>, defs: map<string, CatalogDef>, valid: URL -> bool, key: WorkflowKey)
    requires svcs != [] && Serves(svcs[|svcs| - 1], key, defs, valid)
    requires !SomeServes(svcs[..|svcs| - 1], key, defs, valid)
    ensures key in FirstWins(ServiceClaims(svcs, defs, valid))
    ensures FirstWins(ServiceClaims(svcs, defs, valid))[key] == svcs[|svcs| - 1].url
  {
    ServiceTableSnoc(svcs, defs, valid);
    OneServiceRoute(svcs[|svcs| - 1], defs, valid, key);
    ServiceRouteExists(svcs[..|svcs| - 1], defs, valid, key);
  }

  lemma ServedByFront(svcs: seq<Service>, defs: map<string, CatalogDef>, valid: URL -> bool, key: WorkflowKey, url: URL)
    requires svcs != [] && key in FirstWins(ServiceClaims(svcs[..|svcs| - 1], defs, valid))
    requires FirstWins(ServiceClaims(svcs[..|svcs| - 1], defs, valid))[key] == url
    ensures key in FirstWins(ServiceClaims(svcs, defs, valid))
              && FirstWins(ServiceClaims(svcs, defs, valid))[key] == url
  {
    ServiceTableSnoc(svcs, defs, valid);
  }

  lemma {:induction false} ServiceRoute(svcs: seq<Service>, i: nat, defs: map<string, CatalogDef>, valid: URL -> bool,
                                        key: WorkflowKey)
    requires FirstServing(svcs, i, key, defs, valid)
    ensures key in FirstWins(ServiceClaims(svcs, defs, valid))
    ensures FirstWins(ServiceClaims(svcs, defs, valid))[key] == svcs[i].url
    decreases |svcs|
  {
    var n := |svcs| - 1;
    if i < n {
      ServiceRoute(svcs[..n], i, defs, valid, key);
      ServedByFront(svcs, defs, valid, key, svcs[i].url);
    } else {
      ServedByLast(svcs, defs, valid, key);
    }
  }

  ghost predicate FirstRunning(defs: seq<CatalogDef>, i: int, key: WorkflowKey) {
    0 <= i < |defs| && RunsAt(defs[i], key) && forall j | 0 <= j < i :: !RunsAt(defs[j], key)
  }

  ghost predicate SomeRuns(defs: seq<CatalogDef>, key: WorkflowKey) {
    exists i :: 0 <= i < |defs| && RunsAt(defs[i], key)
  }

  lemma OneRuntimeRoute(def: CatalogDef, key: WorkflowKey)
    ensures key in FirstWins(RuntimeClaim(def)) <==> RunsAt(def, key)
    ensures RunsAt(def, key) ==> FirstWins(RuntimeClaim(def))[key] == RuntimeURL(def)
  {
  }

  lemma SomeRunsSnoc(defs: seq<CatalogDef>, key: WorkflowKey)
    requires defs != []
    ensures SomeRuns(defs, key) <==> SomeRuns(defs[..|defs| - 1], key) || RunsAt(defs[|defs| - 1], key)
  {
  }

  lemma {:induction false} RuntimeRouteExists(defs: seq<CatalogDef>, key: WorkflowKey)
    ensures key in FirstWins(RuntimeClaims(defs)) <==> SomeRuns(defs, key)
    decreases |defs|
  {
    if defs != [] {
      var front, last := defs[..|defs| - 1], defs[|defs| - 1];
      RuntimeRouteExists(front, key);
      OneRuntimeRoute(last, key);
      FirstWinsConcat(RuntimeClaims(front), RuntimeClaim(last));
      SomeRunsSnoc(defs, key);
    }
  }

  lemma {:induction false} RuntimeRoute(defs: seq<CatalogDef>, i: nat, key: WorkflowKey)
    requires FirstRunning(defs, i, key)
    ensures key in FirstWins(RuntimeClaims(defs)) && FirstWins(RuntimeClaims(defs))[key] == RuntimeURL(defs[i])
    decreases |defs|
  {
    var front, last := defs[..|defs| - 1], defs[|defs| - 1];
    FirstWinsConcat(RuntimeClaims(front), RuntimeClaim(last));
    OneRuntimeRoute(last, key);
    assert forall j | 0 <= j < |front| :: front[j] == defs[j];
    if i < |front| {
      RuntimeRoute(front, i, key);
    } else {
      RuntimeRouteExists(front, key);
    }
  }

  /** A runtime route read back: after the scheme, what stands before the last dot is the
      runtime, and what stands after it the namespace. */
  function ReadRuntimeURL(url: URL): Option<(string, string)> {
    if !HasPrefix(url, "http://") || '.' !in url[7..] then None
    else
      var parts := Split(url[7..], '.');
      Some((Join(parts[..Max(1, |parts| - 1)], '.'), parts[|parts| - 1]))
  }

  function Max(a: int, b: int): int {
    if a < b then b else a
  }

  lemma RuntimeURLReads(def: CatalogDef)
    requires '.' !in def.namespace
    ensures ReadRuntimeURL(RuntimeURL(def)) == Some((def.runtimeRef, def.namespace))
  {
    var host := def.runtimeRef + "." + def.namespace;
    assert RuntimeURL(def)[..7] == "http://" && RuntimeURL(def)[7..] == host;
    SplitLast(def.runtimeRef, def.namespace, '.');
    assert host == def.runtimeRef + ['.'] + def.namespace;
    assert host[|def.runtimeRef|] == '.';
  }

  /** The first usable service in list order that references a definition with the key
      provides the URL; without one, the first such definition's runtime does; without
      either, there is no route. */
  lemma RouteMeaning(defs: seq<CatalogDef>, svcs: seq<Service>, valid: URL -> bool, key: WorkflowKey)
    ensures var byName := DefinitionsByName(defs);
            var table := Build(defs, svcs, valid);
            && (key in table <==> SomeServes(svcs, key, byName, valid) || SomeRuns(defs, key))
            && (forall i | FirstServing(svcs, i, key, byName, valid) :: key in table && table[key] == svcs[i].url)
            && (!SomeServes(svcs, key, byName, valid) ==>
                forall i | FirstRunning(defs, i, key) ::
                  && key in table && table[key] == RuntimeURL(defs[i])
                  && ('.' !in defs[i].namespace ==>
                        ReadRuntimeURL(table[key]) == Some((defs[i].runtimeRef, defs[i].namespace))))
  {
    var byName := DefinitionsByName(defs);
    ServiceRouteExists(svcs, byName, valid, key);
    RuntimeRouteExists(defs, key);
    forall i | FirstServing(svcs, i, key, byName, valid)
      ensures key in Build(defs, svcs, valid) && Build(defs, svcs, valid)[key] == svcs[i].url
    {
      ServiceRoute(svcs, i, byName, valid, key);
    }
    forall i | FirstRunning(defs, i, key) && !SomeServes(svcs, key, byName, valid)
      ensures key in Build(defs, svcs, valid) && Build(defs, svcs, valid)[key] == RuntimeURL(defs[i])
      ensures '.' !in defs[i].namespace ==>
                ReadRuntimeURL(RuntimeURL(defs[i])) == Some((defs[i].runtimeRef, defs[i].namespace))
    {
      RuntimeRoute(defs, i, key);
      if '.' !in defs[i].namespace {
        RuntimeURLReads(defs[i]);
      }
    }
  }

  // ---------- What is reported

  /** The services whose URL is in use. */
  ghost predicate Claims(svcs: seq<Service>, svc: Service, valid: URL -> bool) {
    svc in svcs && svc.url != "" && valid(svc.url)
  }

  /** Exactly the services with an invalid URL, the references that resolve to nothing, and
      the referenced definitions without a key are reported. */
  ghost predicate Reported(svcs: seq<Service>, defs: map<string, CatalogDef>, valid: URL -> bool, e: BuildError) {
    match e
    case InvalidURL(ns, name) =>
      exists svc :: svc in svcs && svc.namespace == ns && svc.name == name && svc.url != "" && !valid(svc.url)
    case UnresolvedDefinition(ns, name, d) =>
      exists svc :: Claims(svcs, svc, valid) && svc.namespace == ns && svc.name == name && References(svc, d)
                    && NameKey(ns, d) !in defs
    case MissingLabels(ns, d) =>
      exists svc, name :: Claims(svcs, svc, valid) && References(svc, name) && LeadsToKeyless(svc, name, defs, ns, d)
    case _ => false
  }

  ghost predicate LeadsToKeyless(svc: Service, name: string, defs: map<string, CatalogDef>, ns: string, d: string) {
    var k := NameKey(svc.namespace, name);
    k in defs && defs[k].namespace == ns && defs[k].name == d && KeyFromLabels(defs[k]).None?
  }

  lemma {:induction false} NamesErrorsMember(svc: Service, names: seq<string>, defs: map<string, CatalogDef>,
                                            e: BuildError)
    ensures e in NamesErrors(svc, names, defs) <==> exists name :: name in names && e in NameErrors(svc, name, defs)
    decreases |names|
  {
    if names != [] {
      NamesErrorsMember(svc, names[..|names| - 1], defs, e);
      assert names == names[..|names| - 1] + [names[|names| - 1]];
    }
  }

  lemma {:induction false} ServiceErrorsMember(svcs: seq<Service>, defs: map<string, CatalogDef>, valid: URL -> bool,
                                               e: BuildError)
    ensures e in ServiceErrors(svcs, defs, valid) <==> SomeServiceErrs(svcs, defs, valid, e)
    decreases |svcs|
  {
    if svcs != [] {
      var front, last := svcs[..|svcs| - 1], svcs[|svcs| - 1];
      ServiceErrorsMember(front, defs, valid, e);
      SomeServiceErrsSnoc(front, last, defs, valid, e);
      assert svcs == front + [last];
    }
  }

  ghost predicate SomeServiceErrs(svcs: seq<Service>, defs: map<string, CatalogDef>, valid: URL -> bool,
                                  e: BuildError) {
    exists svc :: svc in svcs && e in OneServiceErrors(svc, defs, valid)
  }

  lemma SomeServiceErrsSnoc(svcs: seq<Service>, last: Service, defs: map<string, CatalogDef>, valid: URL -> bool,
                            e: BuildError)
    ensures SomeServiceErrs(svcs + [last], defs, valid, e)
            <==> SomeServiceErrs(svcs, defs, valid, e) || e in OneServiceErrors(last, defs, valid)
  {
    assert last in svcs + [last];
  }

  lemma OneServiceErrorsMember(svc: Service, defs: map<string, CatalogDef>, valid: URL -> bool, e: BuildError)
    ensures e in OneServiceErrors(svc, defs, valid)
        <==> svc.url != "" && if !valid(svc.url) then e == InvalidURL(svc.namespace, svc.name)
                              else exists name :: References(svc, name) && e in NameErrors(svc, name, defs)
  {
    NamesErrorsMember(svc, ReferencedNames(svc), defs, e);
    forall name
      ensures name in ReferencedNames(svc) <==> References(svc, name)
    {
      ReferencedNamesMember(svc, name);
    }
  }

  lemma ServiceErrorsMeaning(svcs: seq<Service>, defs: map<string, CatalogDef>, valid: URL -> bool, e: BuildError)
    ensures e in ServiceErrors(svcs, defs, valid) <==> Reported(svcs, defs, valid, e)
  {
    ServiceErrorsMember(svcs, defs, valid, e);
    forall svc
      ensures e in OneServiceErrors(svc, defs, valid)
          <==> svc.url != "" && if !valid(svc.url) then e == InvalidURL(svc.namespace, svc.name)
                                else exists name :: References(svc, name) && e in NameErrors(svc, name, defs)
    {
      OneServiceErrorsMember(svc, defs, valid, e);
    }
  }

  ghost predicate SomeRuntimeErrs(defs: seq<CatalogDef>, e: BuildError) {
    exists d :: d in defs && e in RuntimeError(d)
  }

  lemma SomeRuntimeErrsSnoc(defs: seq<CatalogDef>, last: CatalogDef, e: BuildError)
    ensures SomeRuntimeErrs(defs + [last], e) <==> SomeRuntimeErrs(defs, e) || e in RuntimeError(last)
  {
    assert last in defs + [last];
  }

  lemma {:induction false} RuntimeErrorsMember(defs: seq<CatalogDef>, e: BuildError)
    ensures e in RuntimeErrors(defs) <==> SomeRuntimeErrs(defs, e)
    decreases |defs|
  {
    if defs != [] {
      var front, last := defs[..|defs| - 1], defs[|defs| - 1];
      RuntimeErrorsMember(front, e);
      SomeRuntimeErrsSnoc(front, last, e);
      assert defs == front + [last];
    }
  }

  /** Among definitions exactly those without a key are reported, and those with one but
      without a runtime. */
  lemma RuntimeErrorsMeaning(defs: seq<CatalogDef>, e: BuildError)
    ensures e in RuntimeErrors(defs)
        <==> match e
             case MissingLabels(ns, name) =>
               exists d :: d in defs && d.namespace == ns && d.name == name && KeyFromLabels(d).None?
             case MissingRuntime(ns, name) =>
               exists d :: d in defs && d.namespace == ns && d.name == name
                            && KeyFromLabels(d).Some? && d.runtimeRef == ""
             case _ => false
  {
    RuntimeErrorsMember(defs, e);
  }

  // ---------- Identity

  /** The catalog's view of a definition. */
  function InCatalog(key: Key, def: Def): CatalogDef {
    CatalogDef(key.ns, key.name, def.labels, def.spec.runtimeRef)
  }

  /** A definition whose labels the controller has published is routed under exactly its
      namespace, workflow name and version. */
  lemma PublishedIdentity(key: Key, def: Def, flow: FlowDoc)
    requires LabelsUpToDate(key, def, flow) && key.ns != "" && flow.name != "" && flow.version != ""
    ensures KeyFromLabels(InCatalog(key, def)) == Some(WorkflowKey(key.ns, flow.name, flow.version))
  {
  }

  /** Runtime routes lead to different runtimes exactly when their URLs differ. */
  lemma RuntimeURLInjective(a: CatalogDef, b: CatalogDef)
    requires '.' !in a.namespace && '.' !in b.namespace
    ensures RuntimeURL(a) == RuntimeURL(b) <==> a.runtimeRef == b.runtimeRef && a.namespace == b.namespace
  {
    if RuntimeURL(a) == RuntimeURL(b) {
      LastSeparator("http://" + a.runtimeRef, a.namespace, "http://" + b.runtimeRef, b.namespace, '.');
      assert ("http://" + a.runtimeRef)[7..] == a.runtimeRef && ("http://" + b.runtimeRef)[7..] == b.runtimeRef;
    }
  }

  /** All versions of the workflow run on one runtime. */
  ghost predicate OneRuntime(defs: seq<CatalogDef>, namespace: string, name: string) {
    forall a, b | a in defs && b in defs && KeyFromLabels(a).Some? && KeyFromLabels(b).Some?
                  && KeyFromLabels(a).value.namespace == namespace && KeyFromLabels(a).value.name == name
                  && KeyFromLabels(b).value.namespace == namespace && KeyFromLabels(b).value.name == name ::
      a.runtimeRef == b.runtimeRef && a.namespace == b.namespace
  }

  /** Then, as long as no service claims the workflow, all its routed versions share one
      URL, and asking for the latest version has one answer. */
  lemma OneURLPerWorkflow(defs: seq<CatalogDef>, svcs: seq<Service>, valid: URL -> bool,
                          k: WorkflowKey, k': WorkflowKey)
    requires OneRuntime(defs, k.namespace, k.name) && k.namespace == k'.namespace && k.name == k'.name
    requires forall svc | svc in svcs ::
      !Serves(svc, k, DefinitionsByName(defs), valid) && !Serves(svc, k', DefinitionsByName(defs), valid)
    requires k in Build(defs, svcs, valid) && k' in Build(defs, svcs, valid)
    ensures Build(defs, svcs, valid)[k] == Build(defs, svcs, valid)[k']
  {
    RouteMeaning(defs, svcs, valid, k);
    RouteMeaning(defs, svcs, valid, k');
    var i := FirstRunningIndex(defs, k);
    var i' := FirstRunningIndex(defs, k');
    assert defs[i] in defs && defs[i'] in defs;
  }

  lemma FirstRunningIndex(defs: seq<CatalogDef>, key: WorkflowKey) returns (i: nat)
    requires SomeRuns(defs, key)
    ensures FirstRunning(defs, i, key)
  {
    i := 0;
    while !RunsAt(defs[i], key)
      invariant i < |defs|
      invariant forall j | 0 <= j < i :: !RunsAt(defs[j], key)
      invariant exists j :: i <= j < |defs| && RunsAt(defs[j], key)
      decreases |defs| - i
    {
      i := i + 1;
    }
  }

  // ---------- Names

  lemma NameKeyInjective(ns: string, name: string, ns': string, name': string)
    requires '/' !in ns && '/' !in ns'
    requires NameKey(ns, name) == NameKey(ns', name')
    ensures ns == ns' && name == name'
  {
    var k := NameKey(ns, name);
    assert k[|ns|] == '/' && k[|ns'|] == '/';
    assert forall i | 0 <= i < |ns| :: k[i] == ns[i];
    assert forall i | 0 <= i < |ns'| :: k[i] == ns'[i];
    assert |ns| == |ns'|;
    assert k[..|ns|] == ns && k[..|ns'|] == ns';
    assert k[|ns| + 1..] == name && k[|ns'| + 1..] == name';
  }

  /** No two definitions share a namespace and name, as the API server guarantees. */
  ghost predicate UniqueNames(defs: seq<CatalogDef>) {
    && (forall d | d in defs :: '/' !in d.namespace)
    && (forall d, d' | d in defs && d' in defs && d.namespace == d'.namespace && d.name == d'.name :: d == d')
  }

  /** Looking up "namespace/name" finds the definition of that namespace and name, even
      when the name asked for contains slashes. */
  lemma LookupByName(defs: seq<CatalogDef>, ns: string, name: string, d: CatalogDef)
    requires UniqueNames(defs) && '/' !in ns
    ensures NameKey(ns, name) in DefinitionsByName(defs) && DefinitionsByName(defs)[NameKey(ns, name)] == d
            <==> d in defs && d.namespace == ns && d.name == name
  {
    var k := NameKey(ns, name);
    ByNameMember(defs, k);
    if k in DefinitionsByName(defs) {
      var found := DefinitionsByName(defs)[k];
      NameKeyInjective(found.namespace, found.name, ns, name);
    }
  }

  // ---------- List order does not matter

  ghost predicate SameElements<T(!new)>(a: seq<T>, b: seq<T>) {
    forall x :: x in a <==> x in b
  }

  lemma PermutationSameElements<T>(a: seq<T>, b: seq<T>)
    requires multiset(a) == multiset(b)
    ensures forall x :: x in a <==> x in b
  {
    forall x
      ensures x in a <==> x in b
    {
      assert x in a <==> x in multiset(a);
      assert x in b <==> x in multiset(b);
    }
  }

  lemma SameDisagreements(a: seq<Claim>, b: seq<Claim>)
    requires SameElements(a, b) && Disagree(b)
    ensures Disagree(a)
  {
    var key :| DisagreeOn(b, key);
    var x, y :| x in b && y in b && x.key == key && y.key == key && x.url != y.url;
    assert x in a && y in a;
    assert DisagreeOn(a, key);
  }

  lemma AgreeingAt(a: seq<Claim>, b: seq<Claim>, key: WorkflowKey)
    requires SameElements(a, b) && !DisagreeOn(a, key)
    ensures key in FirstWins(a) ==> key in FirstWins(b) && FirstWins(a)[key] == FirstWins(b)[key]
  {
    FirstWinsMeaning(a, key);
    FirstWinsMeaning(b, key);
    if key in FirstWins(a) {
      var x := Claim(key, FirstWins(a)[key]);
      assert x in a && x in b;
      var y := Claim(key, FirstWins(b)[key]);
      assert y in b && y in a;
    }
  }

  lemma AgreeingTables(a: seq<Claim>, b: seq<Claim>)
    requires SameElements(a, b) && !Disagree(a)
    ensures !Disagree(b) && FirstWins(a) == FirstWins(b)
  {
    if Disagree(b) {
      SameDisagreements(a, b);
    }
    forall key
      ensures key in FirstWins(a) <==> key in FirstWins(b)
      ensures key in FirstWins(a) ==> FirstWins(a)[key] == FirstWins(b)[key]
    {
      AgreeingAt(a, b, key);
      AgreeingAt(b, a, key);
    }
  }

  ghost predicate SomeClaims(svcs: seq<Service>, defs: map<string, CatalogDef>, valid: URL -> bool, c: Claim) {
    exists svc :: svc in svcs && c in OneServiceClaims(svc, defs, valid)
  }

  lemma SomeClaimsSnoc(svcs: seq<Service>, last: Service, defs: map<string, CatalogDef>, valid: URL -> bool, c: Claim)
    ensures SomeClaims(svcs + [last], defs, valid, c)
            <==> SomeClaims(svcs, defs, valid, c) || c in OneServiceClaims(last, defs, valid)
  {
    assert last in svcs + [last];
  }

  lemma ServiceClaimsSnoc(svcs: seq<Service>, defs: map<string, CatalogDef>, valid: URL -> bool, c: Claim)
    requires svcs != []
    ensures c in ServiceClaims(svcs, defs, valid)
        <==> || c in ServiceClaims(svcs[..|svcs| - 1], defs, valid)
             || c in OneServiceClaims(svcs[|svcs| - 1], defs, valid)
  {
  }

  lemma {:induction false} ServiceClaimsMember(svcs: seq<Service>, defs: map<string, CatalogDef>, valid: URL -> bool,
                                               c: Claim)
    ensures c in ServiceClaims(svcs, defs, valid) <==> SomeClaims(svcs, defs, valid, c)
    decreases |svcs|
  {
    if svcs != [] {
      var front, last := svcs[..|svcs| - 1], svcs[|svcs| - 1];
      ServiceClaimsMember(front, defs, valid, c);
      ServiceClaimsSnoc(svcs, defs, valid, c);
      assert svcs == front + [last];
      SomeClaimsSnoc(front, last, defs, valid, c);
    }
  }

  lemma {:induction false} RuntimeClaimsMember(defs: seq<CatalogDef>, c: Claim)
    ensures c in RuntimeClaims(defs) <==> exists d :: d in defs && c in RuntimeClaim(d)
    decreases |defs|
  {
    if defs != [] {
      var front := defs[..|defs| - 1];
      RuntimeClaimsMember(front, c);
      assert defs == front + [defs[|defs| - 1]];
    }
  }

  lemma {:induction false} ByNameMember(defs: seq<CatalogDef>, k: string)
    ensures k in DefinitionsByName(defs) <==> exists d :: d in defs && NameKey(d.namespace, d.name) == k
    ensures k in DefinitionsByName(defs) ==>
              DefinitionsByName(defs)[k] in defs
              && NameKey(DefinitionsByName(defs)[k].namespace, DefinitionsByName(defs)[k].name) == k
    decreases |defs|
  {
    if defs != [] {
      var front, last := defs[..|defs| - 1], defs[|defs| - 1];
      ByNameMember(front, k);
      assert last in defs && forall d | d in front :: d in defs;
      assert forall d | d in defs :: d in front || d == last;
    }
  }

  lemma ByNameOrderFree(a: seq<CatalogDef>, b: seq<CatalogDef>)
    requires UniqueNames(a) && SameElements(a, b)
    ensures DefinitionsByName(a) == DefinitionsByName(b)
  {
    forall k
      ensures k in DefinitionsByName(a) <==> k in DefinitionsByName(b)
      ensures k in DefinitionsByName(a) && k in DefinitionsByName(b) ==>
                DefinitionsByName(a)[k] == DefinitionsByName(b)[k]
    {
      ByNameMember(a, k);
      ByNameMember(b, k);
      if k in DefinitionsByName(a) && k in DefinitionsByName(b) {
        var d, d' := DefinitionsByName(a)[k], DefinitionsByName(b)[k];
        NameKeyInjective(d.namespace, d.name, d'.namespace, d'.name);
      }
    }
  }

  /** No duplicate key was reported by either builder. */
  ghost predicate NoDuplicates(defs: seq<CatalogDef>, svcs: seq<Service>, valid: URL -> bool) {
    !Disagree(RuntimeClaims(defs)) && !Disagree(ServiceClaims(svcs, DefinitionsByName(defs), valid))
  }

  /** When no duplicate is reported, any permutation of both lists gives the same table
      and again reports none. */
  lemma OrderFree(defs: seq<CatalogDef>, defs': seq<CatalogDef>, svcs: seq<Service>, svcs': seq<Service>,
                  valid: URL -> bool)
    requires multiset(defs) == multiset(defs') && multiset(svcs) == multiset(svcs')
    requires UniqueNames(defs) && NoDuplicates(defs, svcs, valid)
    ensures NoDuplicates(defs', svcs', valid)
    ensures Build(defs', svcs', valid) == Build(defs, svcs, valid)
  {
    PermutationSameElements(defs, defs');
    PermutationSameElements(svcs, svcs');
    ByNameOrderFree(defs, defs');
    var byName := DefinitionsByName(defs);
    forall c
      ensures c in RuntimeClaims(defs) <==> c in RuntimeClaims(defs')
      ensures c in ServiceClaims(svcs, byName, valid) <==> c in ServiceClaims(svcs', byName, valid)
    {
      RuntimeClaimsMember(defs, c);
      RuntimeClaimsMember(defs', c);
      ServiceClaimsMember(svcs, byName, valid, c);
      ServiceClaimsMember(svcs', byName, valid, c);
    }
    AgreeingTables(RuntimeClaims(defs), RuntimeClaims(defs'));
    AgreeingTables(ServiceClaims(svcs, byName, valid), ServiceClaims(svcs', byName, valid));
  }
}
