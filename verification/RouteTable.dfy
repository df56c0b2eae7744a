/** The gateway's route table: which URL serves a workflow version, built from the
    definitions and services in the cache, stored, and looked up. */
module RouteTable {
  import opened Definitions
  import opened Wrappers

  datatype WorkflowKey = WorkflowKey(namespace: string, name: string, version: string)

  type URL = string

  datatype CatalogDef = CatalogDef(namespace: string, name: string, labels: Labels, runtimeRef: string)

  datatype Service = Service(
    namespace: string,
    name: string,
    url: URL,
    defaultDefinition: Option<string>,
    traffic: seq<string>)

  datatype BuildError =
    | InvalidURL(namespace: string, service: string)
    | UnresolvedDefinition(namespace: string, service: string, definition: string)
    | MissingLabels(namespace: string, definition: string)
    | MissingRuntime(namespace: string, definition: string)
    | DuplicateKey(key: WorkflowKey)

  function KeyFromLabels(def: CatalogDef): Option<WorkflowKey> {
    var ns := Label(def.labels, WorkflowNamespace);
    var name := Label(def.labels, WorkflowName);
    var version := Label(def.labels, WorkflowVersion);
    if ns == "" || name == "" || version == "" then None else Some(WorkflowKey(ns, name, version))
  }

  /** The key comes from three labels, none of them empty. */
  lemma KeyFromLabelsIff(def: CatalogDef, key: WorkflowKey)
    ensures KeyFromLabels(def) == Some(key)
        <==> && LabelIn(def.labels, WorkflowNamespace) == Some(key.namespace)
             && LabelIn(def.labels, WorkflowName) == Some(key.name)
             && LabelIn(def.labels, WorkflowVersion) == Some(key.version)
             && key.namespace != "" && key.name != "" && key.version != ""
  {
  }

  function RuntimeURL(def: CatalogDef): URL {
    "http://" + def.runtimeRef + "." + def.namespace
  }

  // ---------- Specification: claims, of which the first one for a key wins

  datatype Claim = Claim(key: WorkflowKey, url: URL)

  function NonEmpty(names: seq<string>): seq<string>
    decreases |names|
  {
    if names == [] then []
    else NonEmpty(names[..|names| - 1]) + if names[|names| - 1] != "" then [names[|names| - 1]] else []
  }

  function ReferencedNames(svc: Service): seq<string> {
    if svc.defaultDefinition.Some? && svc.defaultDefinition.value != "" then [svc.defaultDefinition.value]
    else NonEmpty(svc.traffic)
  }

  function NameKey(namespace: string, name: string): string {
    namespace + "/" + name
  }

  /** The service's default definition, or else any name in its traffic list. */
  predicate References(svc: Service, name: string) {
    && name != ""
    && if svc.defaultDefinition.GetOr("") != "" then name == svc.defaultDefinition.value else name in svc.traffic
  }

  lemma {:induction false} NonEmptyMember(names: seq<string>, name: string)
    ensures name in NonEmpty(names) <==> name in names && name != ""
    decreases |names|
  {
    if names != [] {
      NonEmptyMember(names[..|names| - 1], name);
      assert names == names[..|names| - 1] + [names[|names| - 1]];
    }
  }

  lemma NonEmptyOne(name: string)
    ensures NonEmpty([name]) == if name == "" then [] else [name]
  {
    assert [name][..0] == [];
  }

  /** Names are filtered part by part, in their order. */
  lemma {:induction false} NonEmptyConcat(a: seq<string>, b: seq<string>)
    ensures NonEmpty(a + b) == NonEmpty(a) + NonEmpty(b)
    decreases |b|
  {
    if b == [] {
      assert a + b == a;
    } else {
      var n := |b| - 1;
      assert (a + b)[..|a + b| - 1] == a + b[..n];
      NonEmptyConcat(a, b[..n]);
    }
  }

  lemma ReferencedNamesMember(svc: Service, name: string)
    ensures name in ReferencedNames(svc) <==> References(svc, name)
  {
    NonEmptyMember(svc.traffic, name);
  }

  /** The claim a service makes through one name, if that leads to a usable definition. */
  function NameClaim(svc: Service, name: string, defs: map<string, CatalogDef>): seq<Claim> {
    var k := NameKey(svc.namespace, name);
    if k in defs && KeyFromLabels(defs[k]).Some? then [Claim(KeyFromLabels(defs[k]).value, svc.url)] else []
  }

  function NameClaims(svc: Service, names: seq<string>, defs: map<string, CatalogDef>): seq<Claim>
    decreases |names|
  {
    if names == [] then []
    else NameClaims(svc, names[..|names| - 1], defs) + NameClaim(svc, names[|names| - 1], defs)
  }

  predicate Usable(svc: Service, valid: URL -> bool) {
    svc.url != "" && valid(svc.url)
  }

  function OneServiceClaims(svc: Service, defs: map<string, CatalogDef>, valid: URL -> bool): seq<Claim> {
    if Usable(svc, valid) then NameClaims(svc, ReferencedNames(svc), defs) else []
  }

  function ServiceClaims(svcs: seq<Service>, defs: map<string, CatalogDef>, valid: URL -> bool): seq<Claim>
    decreases |svcs|
  {
    if svcs == [] then []
    else ServiceClaims(svcs[..|svcs| - 1], defs, valid) + OneServiceClaims(svcs[|svcs| - 1], defs, valid)
  }

  function RuntimeClaim(def: CatalogDef): seq<Claim> {
    if KeyFromLabels(def).Some? && def.runtimeRef != ""
    then [Claim(KeyFromLabels(def).value, RuntimeURL(def))] else []
  }

  function RuntimeClaims(defs: seq<CatalogDef>): seq<Claim>
    decreases |defs|
  {
    if defs == [] then [] else RuntimeClaims(defs[..|defs| - 1]) + RuntimeClaim(defs[|defs| - 1])
  }

  type Table = map<WorkflowKey, URL>

  function FirstWins(claims: seq<Claim>): Table
    decreases |claims|
  {
    if claims == [] then map[]
    else
      var before := FirstWins(claims[..|claims| - 1]);
      var c := claims[|claims| - 1];
      if c.key in before then before else before[c.key := c.url]
  }

  /** Two claims give one key different URLs. */
  ghost predicate Disagree(claims: seq<Claim>) {
    exists key :: DisagreeOn(claims, key)
  }

  ghost predicate DisagreeOn(claims: seq<Claim>, key: WorkflowKey) {
    exists a, b :: a in claims && b in claims && a.key == key && b.key == key && a.url != b.url
  }

  // ---------- What is reported besides

  function NameErrors(svc: Service, name: string, defs: map<string, CatalogDef>): set<BuildError> {
    var k := NameKey(svc.namespace, name);
    if k !in defs then {UnresolvedDefinition(svc.namespace, svc.name, name)}
    else if KeyFromLabels(defs[k]).None? then {MissingLabels(defs[k].namespace, defs[k].name)}
    else {}
  }

  function NamesErrors(svc: Service, names: seq<string>, defs: map<string, CatalogDef>): set<BuildError>
    decreases |names|
  {
    if names == [] then {}
    else NamesErrors(svc, names[..|names| - 1], defs) + NameErrors(svc, names[|names| - 1], defs)
  }

  function OneServiceErrors(svc: Service, defs: map<string, CatalogDef>, valid: URL -> bool): set<BuildError> {
    if svc.url == "" then {}
    else if !valid(svc.url) then {InvalidURL(svc.namespace, svc.name)}
    else NamesErrors(svc, ReferencedNames(svc), defs)
  }

  function ServiceErrors(svcs: seq<Service>, defs: map<string, CatalogDef>, valid: URL -> bool): set<BuildError>
    decreases |svcs|
  {
    if svcs == [] then {}
    else ServiceErrors(svcs[..|svcs| - 1], defs, valid) + OneServiceErrors(svcs[|svcs| - 1], defs, valid)
  }

  function RuntimeError(def: CatalogDef): set<BuildError> {
    if KeyFromLabels(def).None? then {MissingLabels(def.namespace, def.name)}
    else if def.runtimeRef == "" then {MissingRuntime(def.namespace, def.name)}
    else {}
  }

  function RuntimeErrors(defs: seq<CatalogDef>): set<BuildError>
    decreases |defs|
  {
    if defs == [] then {} else RuntimeErrors(defs[..|defs| - 1]) + RuntimeError(defs[|defs| - 1])
  }

  /** Exactly the errors of a set, and a duplicate for every key that claims disagree on. */
  ghost predicate Reports(errs: seq<BuildError>, others: set<BuildError>, claims: seq<Claim>) {
    forall e :: e in errs <==> e in others || (e.DuplicateKey? && DisagreeOn(claims, e.key))
  }

  function DefinitionsByName(defs: seq<CatalogDef>): map<string, CatalogDef>
    decreases |defs|
  {
    if defs == [] then map[]
    else
      var d := defs[|defs| - 1];
      DefinitionsByName(defs[..|defs| - 1])[NameKey(d.namespace, d.name) := d]
  }

  /** The whole table: runtime routes, overlaid by service routes. */
  function Build(defs: seq<CatalogDef>, svcs: seq<Service>, valid: URL -> bool): Table {
    FirstWins(RuntimeClaims(defs)) + FirstWins(ServiceClaims(svcs, DefinitionsByName(defs), valid))
  }

  // ---------- The loops that build it

  /** A claim enters the table, repeats what is there, or is reported. */
  method AddClaim(endpoints: Table, errs: seq<BuildError>, c: Claim)
    returns (endpoints': Table, errs': seq<BuildError>)
    ensures endpoints' == if c.key in endpoints then endpoints else endpoints[c.key := c.url]
    ensures errs' == if c.key in endpoints && endpoints[c.key] != c.url then errs + [DuplicateKey(c.key)] else errs
  {
    if c.key in endpoints && endpoints[c.key] != c.url {
      return endpoints, errs + [DuplicateKey(c.key)];
    }
    endpoints', errs' := endpoints[c.key := c.url], errs;
    assert c.key in endpoints ==> endpoints' == endpoints;
  }

  /** The table so far is the first-wins table of the claims so far, and what is reported
      is what had to be. */
  ghost predicate Collected(claims: seq<Claim>, others: set<BuildError>, endpoints: Table, errs: seq<BuildError>) {
    endpoints == FirstWins(claims) && Reports(errs, others, claims)
  }

  lemma {:induction false} FirstWinsMeaning(claims: seq<Claim>, key: WorkflowKey)
    ensures key in FirstWins(claims) <==> exists i :: 0 <= i < |claims| && claims[i].key == key
    ensures key in FirstWins(claims) ==>
              exists i :: 0 <= i < |claims| && claims[i] == Claim(key, FirstWins(claims)[key])
                          && forall j | 0 <= j < i :: claims[j].key != key
    decreases |claims|
  {
    if claims != [] {
      var front := claims[..|claims| - 1];
      FirstWinsMeaning(front, key);
      assert forall i | 0 <= i < |front| :: front[i] == claims[i];
      if key in FirstWins(front) {
        var i :| 0 <= i < |front| && front[i] == Claim(key, FirstWins(front)[key])
                 && forall j | 0 <= j < i :: front[j].key != key;
        assert claims[i] == Claim(key, FirstWins(claims)[key]);
      } else if claims[|claims| - 1].key == key {
        assert claims[|claims| - 1] == Claim(key, FirstWins(claims)[key]);
        forall j | 0 <= j < |claims| - 1
          ensures claims[j].key != key
        {
          assert front[j].key != key;
        }
      }
    }
  }

  lemma CollectedStep(claims: seq<Claim>, others: set<BuildError>, endpoints: Table, errs: seq<BuildError>, c: Claim,
                      endpoints': Table, errs': seq<BuildError>)
    requires Collected(claims, others, endpoints, errs)
    requires endpoints' == if c.key in endpoints then endpoints else endpoints[c.key := c.url]
    requires errs' == if c.key in endpoints && endpoints[c.key] != c.url then errs + [DuplicateKey(c.key)] else errs
    ensures Collected(claims + [c], others, endpoints', errs')
  {
    assert (claims + [c])[..|claims + [c]| - 1] == claims;
    forall key
      ensures DisagreeOn(claims + [c], key)
          <==> DisagreeOn(claims, key) || (key == c.key && key in endpoints && endpoints[key] != c.url)
    {
      DisagreeStep(claims, c, key);
    }
    if c.key in endpoints && endpoints[c.key] != c.url {
      forall e
        ensures e in errs' <==> e in errs || e == DuplicateKey(c.key)
      {
      }
    }
  }

  /** A new claim disagrees with what came before exactly when it does with the table. */
  lemma DisagreeStep(claims: seq<Claim>, c: Claim, key: WorkflowKey)
    ensures DisagreeOn(claims + [c], key)
        <==> || DisagreeOn(claims, key)
             || (key == c.key && key in FirstWins(claims) && FirstWins(claims)[key] != c.url)
  {
    FirstWinsMeaning(claims, key);
    assert forall x :: x in claims + [c] <==> x in claims || x == c;
    if key in FirstWins(claims) {
      assert Claim(key, FirstWins(claims)[key]) in claims;
    }
  }

  lemma CollectedOther(claims: seq<Claim>, others: set<BuildError>, endpoints: Table, errs: seq<BuildError>,
                       e: BuildError)
    requires Collected(claims, others, endpoints, errs) && !e.DuplicateKey?
    ensures Collected(claims, others + {e}, endpoints, errs + [e])
  {
    assert forall x :: x in errs + [e] <==> x in errs || x == e;
  }

  method ReferencedDefinitions(svc: Service) returns (names: seq<string>)
    ensures names == ReferencedNames(svc)
  {
    if svc.defaultDefinition.Some? && svc.defaultDefinition.value != "" {
      return [svc.defaultDefinition.value];
    }
    names := [];
    for i := 0 to |svc.traffic|
      invariant names == NonEmpty(svc.traffic[..i])
    {
      assert svc.traffic[..i + 1][..i] == svc.traffic[..i];
      if svc.traffic[i] != "" {
        names := names + [svc.traffic[i]];
      }
    }
    assert svc.traffic[..|svc.traffic|] == svc.traffic;
  }

  /** One name of a service: resolved, keyed and claimed, or reported. */
  method AddName(svc: Service, name: string, defs: map<string, CatalogDef>, ghost claims: seq<Claim>,
                 ghost others: set<BuildError>, endpoints: Table, errs: seq<BuildError>)
    returns (endpoints': Table, errs': seq<BuildError>)
    requires Collected(claims, others, endpoints, errs)
    ensures Collected(claims + NameClaim(svc, name, defs), others + NameErrors(svc, name, defs), endpoints', errs')
  {
    var k := NameKey(svc.namespace, name);
    assert claims + [] == claims && others + {} == others;
    if k !in defs {
      CollectedOther(claims, others, endpoints, errs, UnresolvedDefinition(svc.namespace, svc.name, name));
      return endpoints, errs + [UnresolvedDefinition(svc.namespace, svc.name, name)];
    }
    var key := KeyFromLabels(defs[k]);
    if key.None? {
      CollectedOther(claims, others, endpoints, errs, MissingLabels(defs[k].namespace, defs[k].name));
      return endpoints, errs + [MissingLabels(defs[k].namespace, defs[k].name)];
    }
    endpoints', errs' := AddClaim(endpoints, errs, Claim(key.value, svc.url));
    CollectedStep(claims, others, endpoints, errs, Claim(key.value, svc.url), endpoints', errs');
  }

  method AddService(svc: Service, defs: map<string, CatalogDef>, valid: URL -> bool, ghost claims: seq<Claim>,
                    ghost others: set<BuildError>, table: Table, reported: seq<BuildError>)
    returns (endpoints: Table, errs: seq<BuildError>)
    requires Collected(claims, others, table, reported)
    ensures Collected(claims + OneServiceClaims(svc, defs, valid), others + OneServiceErrors(svc, defs, valid),
                      endpoints, errs)
  {
    endpoints, errs := table, reported;
    assert claims + [] == claims && others + {} == others;
    if svc.url == "" {
      return;
    }
    if !valid(svc.url) {
      CollectedOther(claims, others, endpoints, errs, InvalidURL(svc.namespace, svc.name));
      return endpoints, errs + [InvalidURL(svc.namespace, svc.name)];
    }
    var names := ReferencedDefinitions(svc);
    endpoints, errs := AddNames(svc, names, defs, claims, others, endpoints, errs);
  }

  method AddNames(svc: Service, names: seq<string>, defs: map<string, CatalogDef>, ghost claims: seq<Claim>,
                  ghost others: set<BuildError>, table: Table, reported: seq<BuildError>)
    returns (endpoints: Table, errs: seq<BuildError>)
    requires Collected(claims, others, table, reported)
    ensures Collected(claims + NameClaims(svc, names, defs), others + NamesErrors(svc, names, defs), endpoints, errs)
  {
    endpoints, errs := table, reported;
    assert claims + [] == claims && others + {} == others;
    for n := 0 to |names|
      invariant Collected(claims + NameClaims(svc, names[..n], defs), others + NamesErrors(svc, names[..n], defs),
                          endpoints, errs)
    {
      NameClaimsSnoc(claims, others, svc, names, n, defs);
      endpoints, errs := AddName(svc, names[n], defs, claims + NameClaims(svc, names[..n], defs),
                                 others + NamesErrors(svc, names[..n], defs), endpoints, errs);
    }
    assert names[..|names|] == names;
  }

  lemma NameClaimsSnoc(claims: seq<Claim>, others: set<BuildError>, svc: Service, names: seq<string>, n: nat,
                       defs: map<string, CatalogDef>)
    requires n < |names|
    ensures claims + NameClaims(svc, names[..n + 1], defs)
            == claims + NameClaims(svc, names[..n], defs) + NameClaim(svc, names[n], defs)
    ensures others + NamesErrors(svc, names[..n + 1], defs)
            == others + NamesErrors(svc, names[..n], defs) + NameErrors(svc, names[n], defs)
  {
    assert names[..n + 1][..n] == names[..n];
  }

  method BuildExecutionEndpoints(svcs: seq<Service>, defs: map<string, CatalogDef>, valid: URL -> bool)
    returns (endpoints: Table, errs: seq<BuildError>)
    ensures endpoints == FirstWins(ServiceClaims(svcs, defs, valid))
    ensures Reports(errs, ServiceErrors(svcs, defs, valid), ServiceClaims(svcs, defs, valid))
  {
    endpoints, errs := map[], [];
    for i := 0 to |svcs|
      invariant Collected(ServiceClaims(svcs[..i], defs, valid), ServiceErrors(svcs[..i], defs, valid), endpoints, errs)
    {
      assert svcs[..i + 1][..i] == svcs[..i];
      endpoints, errs := AddService(svcs[i], defs, valid, ServiceClaims(svcs[..i], defs, valid),
                                    ServiceErrors(svcs[..i], defs, valid), endpoints, errs);
    }
    assert svcs[..|svcs|] == svcs;
  }

  method BuildRuntimeServiceEndpoints(defs: seq<CatalogDef>) returns (endpoints: Table, errs: seq<BuildError>)
    ensures endpoints == FirstWins(RuntimeClaims(defs))
    ensures Reports(errs, RuntimeErrors(defs), RuntimeClaims(defs))
  {
    endpoints, errs := map[], [];
    for i := 0 to |defs|
      invariant Collected(RuntimeClaims(defs[..i]), RuntimeErrors(defs[..i]), endpoints, errs)
    {
      assert defs[..i + 1][..i] == defs[..i];
      endpoints, errs := AddDefinition(defs[i], RuntimeClaims(defs[..i]), RuntimeErrors(defs[..i]), endpoints, errs);
    }
    assert defs[..|defs|] == defs;
  }

  method AddDefinition(def: CatalogDef, ghost claims: seq<Claim>, ghost others: set<BuildError>,
                       table: Table, reported: seq<BuildError>)
    returns (endpoints: Table, errs: seq<BuildError>)
    requires Collected(claims, others, table, reported)
    ensures Collected(claims + RuntimeClaim(def), others + RuntimeError(def), endpoints, errs)
  {
    endpoints, errs := table, reported;
    assert claims + [] == claims && others + {} == others;
    var key := KeyFromLabels(def);
    if key.None? {
      CollectedOther(claims, others, endpoints, errs, MissingLabels(def.namespace, def.name));
      return endpoints, errs + [MissingLabels(def.namespace, def.name)];
    }
    if def.runtimeRef == "" {
      CollectedOther(claims, others, endpoints, errs, MissingRuntime(def.namespace, def.name));
      return endpoints, errs + [MissingRuntime(def.namespace, def.name)];
    }
    var c := Claim(key.value, RuntimeURL(def));
    endpoints, errs := AddClaim(endpoints, errs, c);
    CollectedStep(claims, others, table, reported, c, endpoints, errs);
  }

  // ---------- The store and the resolver

  class ExecutionEndpointStore {
    var endpoints: Table

    constructor ()
      ensures endpoints == map[]
    {
      endpoints := map[];
    }

    method Replace(table: Table)
      modifies this
      ensures endpoints == table
    {
      endpoints := map[];
      var todo := table.Keys;
      while todo != {}
        invariant todo <= table.Keys
        invariant endpoints == map k | k in table && k !in todo :: table[k]
      {
        var k :| k in todo;
        todo := todo - {k};
        endpoints := endpoints[k := table[k]];
      }
    }

    function Lookup(key: WorkflowKey): Option<URL>
      reads this
    {
      if key in endpoints then Some(endpoints[key]) else None
    }

    /** Any routed version will do; which one is up to the map's iteration order. */
    method LookupLatest(namespace: string, name: string) returns (r: Option<URL>)
      ensures r.None? <==> forall k | k in endpoints :: !(k.namespace == namespace && k.name == name)
      ensures r.Some? ==> exists k :: k in endpoints && k.namespace == namespace && k.name == name
                                      && endpoints[k] == r.value
    {
      var todo := endpoints.Keys;
      while todo != {}
        invariant todo <= endpoints.Keys
        invariant forall k | k in endpoints && k !in todo :: !(k.namespace == namespace && k.name == name)
      {
        var k :| k in todo;
        todo := todo - {k};
        if k.namespace == namespace && k.name == name {
          return Some(endpoints[k]);
        }
      }
      return None;
    }

    /** An exact version is looked up; an empty one means any version of the workflow,
        whose URL is determined when all of them share it. */
    method ResolveExecution(namespace: string, name: string, version: string) returns (r: Option<URL>)
      ensures version != "" ==> r == Lookup(WorkflowKey(namespace, name, version))
      ensures version == "" ==>
                (r.None? <==> forall k | k in endpoints :: !(k.namespace == namespace && k.name == name))
      ensures forall url | version == "" && r.Some?
                           && (forall k | k in endpoints && k.namespace == namespace && k.name == name ::
                                 endpoints[k] == url) ::
                r == Some(url)
    {
      if version != "" {
        return Lookup(WorkflowKey(namespace, name, version));
      }
      r := LookupLatest(namespace, name);
    }
  }

  /** The loop of doRecompute that lays service routes over runtime routes. */
  method Overlay(runtime: Table, services: Table) returns (endpoints: Table)
    ensures endpoints == runtime + services
  {
    endpoints := runtime;
    var todo := services.Keys;
    while todo != {}
      invariant todo <= services.Keys
      invariant endpoints == runtime + map k | k in services && k !in todo :: services[k]
    {
      var k :| k in todo;
      todo := todo - {k};
      endpoints := endpoints[k := services[k]];
    }
  }

  method IndexByName(defs: seq<CatalogDef>) returns (byName: map<string, CatalogDef>)
    ensures byName == DefinitionsByName(defs)
  {
    byName := map[];
    for i := 0 to |defs|
      invariant byName == DefinitionsByName(defs[..i])
    {
      assert defs[..i + 1][..i] == defs[..i];
      byName := byName[NameKey(defs[i].namespace, defs[i].name) := defs[i]];
    }
    assert defs[..|defs|] == defs;
  }

  /** The body of doRecompute after both lists have been read. */
  method Recompute(defs: seq<CatalogDef>, svcs: seq<Service>, valid: URL -> bool, store: ExecutionEndpointStore)
    modifies store
    ensures store.endpoints == Build(defs, svcs, valid)
  {
    var endpoints, errs := BuildRuntimeServiceEndpoints(defs);
    var byName := IndexByName(defs);
    var serviceEndpoints, serviceErrs := BuildExecutionEndpoints(svcs, byName, valid);
    endpoints := Overlay(endpoints, serviceEndpoints);
    store.Replace(endpoints);
  }
}
