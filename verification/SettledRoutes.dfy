/** The definition controller and the gateway together: what the gateway routes once the
    controller has settled. */
module SettledRoutes {
  import opened DefinitionReconciler
  import opened Definitions
  import opened Kubernetes
  import opened RouteTable
  import opened RouteTableProperties
  import opened Wrappers

  /** The gateway's cache lists the definitions of a world, in any order. */
  ghost predicate Lists(list: seq<CatalogDef>, w: World) {
    && (forall k | k in w.defs :: InCatalog(k, w.defs[k]) in list)
    && (forall d | d in list :: IsListed(d, w))
  }

  ghost predicate IsListed(d: CatalogDef, w: World) {
    exists k :: k in w.defs && d == InCatalog(k, w.defs[k])
  }

  /** Every definition's document parses and has a version, as the webhook and the
      document standard ask for. */
  predicate AllParsed(w: World) {
    forall k | k in w.defs ::
      k.ns != "" && ParseFlow(w.defs[k].spec).Some? && ParseFlow(w.defs[k].spec).value.version != ""
  }

  /** The route a definition's namespace and document ask for. */
  function Identity(w: World, k: Key): WorkflowKey
    requires k in w.defs && ParseFlow(w.defs[k].spec).Some?
  {
    var flow := ParseFlow(w.defs[k].spec).value;
    WorkflowKey(k.ns, flow.name, flow.version)
  }

  lemma SettledIdentity(w: World, k: Key)
    requires AllSettled(w) && AllParsed(w) && k in w.defs
    ensures KeyFromLabels(InCatalog(k, w.defs[k])) == Some(Identity(w, k))
  {
    assert Settled(w, k);
    SettledIsLabelled(w, k);
    PublishedIdentity(k, w.defs[k], ParseFlow(w.defs[k].spec).value);
  }

  ghost predicate Asks(w: World, k: Key, route: WorkflowKey)
    requires AllParsed(w)
  {
    k in w.defs && Identity(w, k) == route && w.defs[k].spec.runtimeRef != ""
  }

  /** Runtime routes are exactly the identities of the definitions with a runtime. */
  lemma RoutesAreIdentities(w: World, list: seq<CatalogDef>, route: WorkflowKey)
    requires AllSettled(w) && AllParsed(w) && Lists(list, w)
    ensures route in FirstWins(RuntimeClaims(list)) <==> exists k :: Asks(w, k, route)
  {
    RuntimeRouteExists(list, route);
    forall k | k in w.defs
      ensures KeyFromLabels(InCatalog(k, w.defs[k])) == Some(Identity(w, k))
    {
      SettledIdentity(w, k);
    }
    if SomeRuns(list, route) {
      var i := FirstRunningIndex(list, route);
      assert IsListed(list[i], w);
      var k :| k in w.defs && list[i] == InCatalog(k, w.defs[k]);
      assert Asks(w, k, route);
    }
    if k :| Asks(w, k, route) {
      assert RunsAt(InCatalog(k, w.defs[k]), route);
      var i :| 0 <= i < |list| && list[i] == InCatalog(k, w.defs[k]);
      assert RunsAt(list[i], route);
    }
  }

  /** A definition that reports a consistent runtime, and that no service claims, is
      served by its own runtime, which has its ConfigMap, whatever order the cache lists. */
  lemma SettledRoute(w: World, list: seq<CatalogDef>, svcs: seq<Service>, valid: URL -> bool, key: Key)
    requires AllSettled(w) && AllParsed(w) && Lists(list, w)
    requires key in w.defs && w.defs[key].spec.runtimeRef != ""
    requires !SomeServes(svcs, Identity(w, key), DefinitionsByName(list), valid)
    ensures key in w.statuses && RuntimeConsistent in w.statuses[key].conditions
    ensures Identity(w, key) in Build(list, svcs, valid)
    ensures w.statuses[key].conditions[RuntimeConsistent] ==>
              && Build(list, svcs, valid)[Identity(w, key)] == RuntimeURL(InCatalog(key, w.defs[key]))
              && ('.' !in key.ns ==>
                    ReadRuntimeURL(Build(list, svcs, valid)[Identity(w, key)])
                    == Some((w.defs[key].spec.runtimeRef, key.ns)))
              && ConfigMapKey(key) in w.configMaps
              && Publishes(w.configMaps[ConfigMapKey(key)], key, w.defs[key], ParseFlow(w.defs[key].spec).value)
  {
    var route := Identity(w, key);
    SettledMeaning(w, key, ParseFlow(w.defs[key].spec).value);
    RouteMeaning(list, svcs, valid, route);
    SettledIdentity(w, key);
    assert RunsAt(InCatalog(key, w.defs[key]), route);
    var n :| 0 <= n < |list| && list[n] == InCatalog(key, w.defs[key]);
    assert SomeRuns(list, route) by {
      assert RunsAt(list[n], route);
    }
    var i := FirstRunningIndex(list, route);
    assert IsListed(list[i], w);
    var k :| k in w.defs && list[i] == InCatalog(k, w.defs[k]);
    SettledIdentity(w, k);
    if '.' !in key.ns {
      RuntimeURLReads(InCatalog(key, w.defs[key]));
    }
  }
}
