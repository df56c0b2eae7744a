/** What minification guarantees: kept operations mean the same, the result is exact,
    and minifications compose. */
module MinifierProperties {
  import opened Minifier
  import opened OpenApiTree
  import opened Reachability
  import opened RefCollector
  import opened Strings
  import opened Wrappers

  /** An operation of the document: a method of a path item. */
  predicate OperationAt(doc: Fields, path: string, key: string) {
    !IsExtension(path) && key in METHODS && Entry(doc, path, key).Some?
  }

  /** An operation whose decoded id is among those asked for. */
  predicate AskedAt(doc: Fields, operations: set<string>, path: string, key: string) {
    OperationAt(doc, path, key) && OperationIdOf(Entry(doc, path, key).value) in operations
  }

  /** Whether the entry under a path and key is still there afterwards, read off the original. */
  ghost predicate EntrySurvives(doc: Fields, operations: set<string>, path: string, key: string) {
    || IsExtension(path)
    || ((exists m :: AskedAt(doc, operations, path, m)) && (key in METHODS ==> AskedAt(doc, operations, path, key)))
  }

  /** Every asked id sits on an operation, not on an extension that looks like one. */
  ghost predicate IdsOnOperations(doc: Fields, operations: set<string>) {
    forall path, key, id | Asked(doc, operations, path, key, id) :: OperationAt(doc, path, key)
  }

  /** OpenAPI 3.0.3, section 4.7.8: the name of a path begins with a slash. */
  predicate PathsBeginWithSlash(doc: Fields) {
    forall path | path in Child(doc, PATHS).GetOr(map[]) :: IsExtension(path) || HasPrefix(path, "/")
  }

  ghost predicate Minifiable(doc: Fields, operations: set<string>) {
    UniqueIds(doc, operations) && Collectable(doc, operations) && Child(doc, PATHS).Some?
  }

  // ---------- Surviving entries

  lemma MinifiedEntry(doc: Fields, operations: set<string>, roots: set<string>, path: string, key: string)
    requires Child(doc, PATHS).Some?
    ensures Entry(MinifiedFor(doc, operations, roots), path, key)
            == if EntrySurvives(doc, operations, path, key) then Entry(doc, path, key) else None
  {
    var paths := Child(doc, PATHS).value;
    assert Child(MinifiedFor(doc, operations, roots), PATHS) == Some(MinifyPaths(paths, operations));
    if path in paths && !IsExtension(path) {
      var item := MinifyItem(paths[path], operations);
      if paths[path].Obj? {
        forall m
          ensures m in METHODS && m in item <==> AskedAt(doc, operations, path, m)
        {
        }
      }
    }
  }

  /** Surviving operations are exactly those asked for, unchanged, and no path item is
      left without one. */
  lemma OperationsExact(doc: Fields, operations: set<string>, roots: set<string>, path: string, key: string)
    requires Child(doc, PATHS).Some?
    ensures var min := MinifiedFor(doc, operations, roots);
            && (OperationAt(min, path, key) <==> AskedAt(doc, operations, path, key))
            && (OperationAt(min, path, key) ==> Entry(min, path, key) == Entry(doc, path, key))
            && (path in Child(min, PATHS).value && !IsExtension(path) ==> exists m :: OperationAt(min, path, m))
  {
    var min := MinifiedFor(doc, operations, roots);
    MinifiedEntry(doc, operations, roots, path, key);
    var paths := Child(doc, PATHS).value;
    if path in MinifyPaths(paths, operations) && !IsExtension(path) {
      var item := MinifyItem(paths[path], operations);
      var m :| m in METHODS && m in item;
      assert AskedAt(doc, operations, path, m);
      MinifiedEntry(doc, operations, roots, path, m);
      assert OperationAt(min, path, m);
    }
  }

  /** By name: an operation under one of the eight methods survives exactly when its id was
      asked for; below an extension everything stays. */
  lemma OperationsByName(doc: Fields, operations: set<string>, roots: set<string>, path: string, key: string,
                         operation: Fields)
    requires Holds(doc, RefPath("paths", path, key), operation)
    requires key in {"get", "put", "post", "delete", "options", "head", "patch", "trace"}
    ensures Child(doc, PATHS).Some?
    ensures Holds(MinifiedFor(doc, operations, roots), RefPath("paths", path, key), operation)
            <==> (|path| >= 2 && path[0] == 'x' && path[1] == '-') || OperationIdOf(operation) in operations
  {
    EntryMeaning(doc, path, key, operation);
    EntryMeaning(MinifiedFor(doc, operations, roots), path, key, operation);
    MinifiedEntry(doc, operations, roots, path, key);
    assert IsExtension(path) <==> |path| >= 2 && path[0] == 'x' && path[1] == '-' by {
      assert |path| >= 2 ==> path[..2] == [path[0], path[1]];
      assert |path| >= 2 ==> (path[..2] == "x-" <==> path[..2][0] == 'x' && path[..2][1] == '-');
    }
    if AskedAt(doc, operations, path, key) {
      assert exists m :: AskedAt(doc, operations, path, m);
    }
  }

  /** By name: a component of one of the eight kinds survives exactly when it is needed;
      the kinds beside them, security schemes among them, stay whole. */
  lemma ComponentsByName(doc: Fields, operations: set<string>, roots: set<string>, kind: string, name: string)
    requires Child(doc, PATHS).Some? && Child(doc, "components").Some? && kind in Child(doc, "components").value
    ensures var filtered := {"schemas", "headers", "parameters", "responses", "requestBodies", "examples", "links",
                             "callbacks"};
            var before := Child(doc, "components").value;
            var min := MinifiedFor(doc, operations, roots);
            && Child(min, "components").Some? && kind in Child(min, "components").value
            && var after := Child(min, "components").value;
               && (kind !in filtered ==> after[kind] == before[kind])
               && (kind in filtered && before[kind].Obj? ==>
                     && after[kind].Obj?
                     && (name in after[kind].fields
                         <==> name in before[kind].fields && NeedsObject(doc, roots, "components", kind, name))
                     && (name in after[kind].fields ==> after[kind].fields[name] == before[kind].fields[name]))
    ensures "securitySchemes" in Child(doc, "components").value ==>
              Child(MinifiedFor(doc, operations, roots), "components").value["securitySchemes"]
              == Child(doc, "components").value["securitySchemes"]
  {
    RestUntouched(doc, operations, roots);
    assert "securitySchemes" !in FILTERED;
    var min := MinifiedFor(doc, operations, roots);
    assert Child(min, COMPONENTS) == Some(MinifyComponents(doc, roots, Child(doc, COMPONENTS).value));
  }

  // ---------- Surviving objects

  /** What a reference names is kept unless it is a filtered component that nobody needs,
      or below `#/paths` and dropped. */
  ghost predicate RefKept(doc: Fields, operations: set<string>, roots: set<string>, ref: string)
    requires ParseRef(ref).Some?
  {
    var p := ParseRef(ref).value;
    && (p.section == COMPONENTS && p.subsection in FILTERED ==>
          NeedsObject(doc, roots, COMPONENTS, p.subsection, p.name))
    && (p.section == PATHS ==> EntrySurvives(doc, operations, p.subsection, p.name))
  }

  /** Of all references that the original resolves, exactly the kept ones are still found,
      and unchanged; any other dangles. */
  lemma MinifiedObject(doc: Fields, operations: set<string>, roots: set<string>, ref: string)
    requires Child(doc, PATHS).Some? && FindByRefObject(doc, ref).Ok?
    ensures var min := MinifiedFor(doc, operations, roots);
            if RefKept(doc, operations, roots, ref)
            then FindByRefObject(min, ref) == FindByRefObject(doc, ref) && Resolve(min, ref) == Resolve(doc, ref)
            else !FindByRefObject(min, ref).Ok? && Resolve(min, ref).None?
  {
    var p := ParseRef(ref).value;
    if p.section == PATHS {
      MinifiedEntry(doc, operations, roots, p.subsection, p.name);
    }
    if RefKept(doc, operations, roots, ref) {
      ResolveThroughObject(doc, ref);
      ResolveThroughObject(MinifiedFor(doc, operations, roots), ref);
    } else if p.section == PATHS {
      MissingEntry(doc, operations, roots, ref);
    } else {
      MissingComponent(doc, operations, roots, ref);
    }
  }

  lemma WalkTwo(a: Fields, ref: string, section: string, subsection: string)
    requires |Split(ref, '/')| >= 4 && Split(ref, '/')[1] == section && Split(ref, '/')[2] == subsection
    requires HasPrefix(ref, "#/") && Child(a, section).Some?
    ensures var parts := Split(ref, '/');
            var fields := Child(a, section).value;
            Resolve(a, ref) == if subsection in fields then Walk(fields[subsection], parts[3..]) else None
  {
    var parts := Split(ref, '/');
    assert parts[1..][1..] == parts[2..];
    assert parts[2..][1..] == parts[3..];
    assert Walk(Obj(a), parts[1..]) == Walk(a[section], parts[2..]);
  }

  lemma MissingEntry(doc: Fields, operations: set<string>, roots: set<string>, ref: string)
    requires Child(doc, PATHS).Some? && FindByRefObject(doc, ref).Ok?
    requires var p := ParseRef(ref).value;
             p.section == PATHS && !EntrySurvives(doc, operations, p.subsection, p.name)
    ensures Resolve(MinifiedFor(doc, operations, roots), ref).None?
  {
    var p := ParseRef(ref).value;
    var min := MinifiedFor(doc, operations, roots);
    var paths := MinifyPaths(Child(doc, PATHS).value, operations);
    assert Child(min, PATHS) == Some(paths);
    WalkTwo(min, ref, PATHS, p.subsection);
    MinifiedEntry(doc, operations, roots, p.subsection, p.name);
    if p.subsection in paths {
      assert p.name !in paths[p.subsection].fields;
    }
  }

  lemma MissingComponent(doc: Fields, operations: set<string>, roots: set<string>, ref: string)
    requires Child(doc, PATHS).Some? && FindByRefObject(doc, ref).Ok?
    requires var p := ParseRef(ref).value;
             p.section == COMPONENTS && p.subsection in FILTERED
             && !NeedsObject(doc, roots, COMPONENTS, p.subsection, p.name)
    ensures !FindByRefObject(MinifiedFor(doc, operations, roots), ref).Ok?
    ensures Resolve(MinifiedFor(doc, operations, roots), ref).None?
  {
    var p := ParseRef(ref).value;
    var min := MinifiedFor(doc, operations, roots);
    var components := MinifyComponents(doc, roots, Child(doc, COMPONENTS).value);
    assert Child(min, COMPONENTS) == Some(components);
    WalkTwo(min, ref, COMPONENTS, p.subsection);
    assert p.name !in components[p.subsection].fields;
  }

  /** Whatever the minified document holds, the original holds too, and it is kept. */
  lemma FoundInOriginal(doc: Fields, operations: set<string>, roots: set<string>, ref: string)
    requires Child(doc, PATHS).Some?
    requires FindByRefObject(MinifiedFor(doc, operations, roots), ref).Ok?
    ensures FindByRefObject(doc, ref) == FindByRefObject(MinifiedFor(doc, operations, roots), ref)
    ensures RefKept(doc, operations, roots, ref)
  {
    assert FindByRefObject(doc, ref).Ok?;
    MinifiedObject(doc, operations, roots, ref);
  }

  // ---------- Meaning: inlining references to a given depth

  datatype Inlined =
    | IObj(fields: map<string, Inlined>)
    | IArr(items: seq<Inlined>)
    | ILeaf(node: Node)
    | Link(target: Inlined)
    | Dangling(ref: string)
    | Cut(ref: string)

  ghost function Inline(doc: Fields, n: Node, depth: nat): Inlined
    decreases depth, n, 0
  {
    match n
    case Obj(m) => IObj(map k | k in m :: InlineAt(doc, k, m[k], depth))
    case Arr(s) => IArr(seq(|s|, i requires 0 <= i < |s| => Inline(doc, s[i], depth)))
    case _ => ILeaf(n)
  }

  ghost function InlineAt(doc: Fields, key: string, v: Node, depth: nat): Inlined
    decreases depth, v, 1
  {
    if key == REF && v.Str? then
      if depth == 0 then Cut(v.text)
      else match Resolve(doc, v.text)
           case None => Dangling(v.text)
           case Some(t) => Link(Inline(doc, t, depth - 1))
    else Inline(doc, v, depth)
  }

  /** The references inside the target of a reference, all of its segments followed. */
  ghost function Links(doc: Fields, ref: string): set<string> {
    match Resolve(doc, ref)
    case None => {}
    case Some(t) => RefsIn(t)
  }

  ghost function LinksOf(doc: Fields): string -> set<string> {
    ref => Links(doc, ref)
  }

  /** The reference is met while inlining a node, at some depth. */
  ghost predicate LinkedFrom(doc: Fields, n: Node, ref: string) {
    Reachable(LinksOf(doc), RefsIn(n), ref)
  }

  /** Every reference met names an object. */
  ghost predicate Grounded(doc: Fields, n: Node) {
    forall ref | LinkedFrom(doc, n, ref) :: FindByRefObject(doc, ref).Ok?
  }

  /** Documents that agree on a closed set of references inline alike. */
  lemma {:induction false} SameInline(doc: Fields, doc': Fields, refs: iset<string>, n: Node, depth: nat)
    requires forall r | r in RefsIn(n) :: r in refs
    requires forall r | r in refs :: Resolve(doc, r) == Resolve(doc', r)
    requires forall r, q | r in refs && q in Links(doc, r) :: q in refs
    ensures Inline(doc, n, depth) == Inline(doc', n, depth)
    decreases depth, n
  {
    match n
    case Obj(m) =>
      forall k | k in m
        ensures InlineAt(doc, k, m[k], depth) == InlineAt(doc', k, m[k], depth)
      {
        assert forall r | r in RefsAt(k, m[k]) :: r in RefsIn(n);
        if k == REF && m[k].Str? {
          var r := m[k].text;
          assert r in refs;
          if depth > 0 && Resolve(doc, r).Some? {
            SameInline(doc, doc', refs, Resolve(doc, r).value, depth - 1);
          }
        } else {
          SameInline(doc, doc', refs, m[k], depth);
        }
      }
    case Arr(s) =>
      forall i | 0 <= i < |s|
        ensures Inline(doc, s[i], depth) == Inline(doc', s[i], depth)
      {
        SameInline(doc, doc', refs, s[i], depth);
      }
    case _ =>
  }

  /** Equal inlinings have equal inlinings one link further down. */
  lemma {:induction false} InlineBelow(doc: Fields, doc': Fields, n: Node, depth: nat, ref: string)
    requires ref in RefsIn(n)
    requires Inline(doc, n, depth + 1) == Inline(doc', n, depth + 1)
    ensures Resolve(doc, ref).Some? ==>
              && Resolve(doc', ref).Some?
              && Inline(doc, Resolve(doc, ref).value, depth) == Inline(doc', Resolve(doc', ref).value, depth)
    decreases n
  {
    match n
    case Obj(m) =>
      var k :| k in m && ref in RefsAt(k, m[k]);
      assert Inline(doc, n, depth + 1).fields[k] == InlineAt(doc, k, m[k], depth + 1);
      assert Inline(doc', n, depth + 1).fields[k] == InlineAt(doc', k, m[k], depth + 1);
      if !(k == REF && m[k].Str?) {
        InlineBelow(doc, doc', m[k], depth, ref);
      }
    case Arr(s) =>
      var i :| 0 <= i < |s| && ref in RefsIn(s[i]);
      assert Inline(doc, n, depth + 1).items[i] == Inline(doc, s[i], depth + 1);
      assert Inline(doc', n, depth + 1).items[i] == Inline(doc', s[i], depth + 1);
      InlineBelow(doc, doc', s[i], depth, ref);
    case _ =>
  }

  /** A node reads the same in both documents at every depth. */
  ghost predicate SameMeaning(doc: Fields, doc': Fields, n: Node) {
    forall depth: nat :: Inline(doc', n, depth) == Inline(doc, n, depth)
  }

  /** Every reference met while inlining a node is kept. */
  ghost predicate LinksKept(doc: Fields, operations: set<string>, roots: set<string>, n: Node)
    requires Grounded(doc, n)
  {
    forall ref | LinkedFrom(doc, n, ref) && Resolve(doc, ref).Some? :: RefKept(doc, operations, roots, ref)
  }

  /** A node whose references all name objects reads the same after minification, cycles
      included, exactly when every reference met on the way is kept. */
  lemma NodeMeaningIff(doc: Fields, operations: set<string>, roots: set<string>, n: Node)
    requires Child(doc, PATHS).Some? && Grounded(doc, n)
    ensures SameMeaning(doc, MinifiedFor(doc, operations, roots), n) <==> LinksKept(doc, operations, roots, n)
  {
    if LinksKept(doc, operations, roots, n) {
      KeptLinksMeanTheSame(doc, operations, roots, n);
    }
    if SameMeaning(doc, MinifiedFor(doc, operations, roots), n) {
      SameMeaningKeepsLinks(doc, operations, roots, n);
    }
  }

  lemma KeptLinksMeanTheSame(doc: Fields, operations: set<string>, roots: set<string>, n: Node)
    requires Child(doc, PATHS).Some? && Grounded(doc, n) && LinksKept(doc, operations, roots, n)
    ensures SameMeaning(doc, MinifiedFor(doc, operations, roots), n)
  {
    var min := MinifiedFor(doc, operations, roots);
    var refs := iset r | LinkedFrom(doc, n, r);
    forall r | r in refs
      ensures Resolve(doc, r) == Resolve(min, r)
      ensures forall q | q in Links(doc, r) :: q in refs
    {
      MinifiedObject(doc, operations, roots, r);
      forall q | q in Links(doc, r)
        ensures q in refs
      {
        assert q in LinksOf(doc)(r);
        SuccessorReachable(LinksOf(doc), RefsIn(n), r, q);
      }
    }
    forall r | r in RefsIn(n)
      ensures r in refs
    {
      RootReachable(LinksOf(doc), RefsIn(n), r);
    }
    forall depth: nat
      ensures Inline(min, n, depth) == Inline(doc, n, depth)
    {
      SameInline(doc, min, refs, n, depth);
    }
  }

  ghost predicate AgreesAt(doc: Fields, doc': Fields, ref: string, depth: nat) {
    Resolve(doc, ref).Some? ==>
      && Resolve(doc', ref).Some?
      && Inline(doc, Resolve(doc, ref).value, depth) == Inline(doc', Resolve(doc', ref).value, depth)
  }

  ghost predicate LinkAgrees(doc: Fields, doc': Fields, ref: string) {
    forall depth: nat :: AgreesAt(doc, doc', ref, depth)
  }

  lemma SameMeaningKeepsLinks(doc: Fields, operations: set<string>, roots: set<string>, n: Node)
    requires Child(doc, PATHS).Some? && Grounded(doc, n)
    requires SameMeaning(doc, MinifiedFor(doc, operations, roots), n)
    ensures LinksKept(doc, operations, roots, n)
  {
    var min := MinifiedFor(doc, operations, roots);
    var s := iset r | LinkedFrom(doc, n, r) && LinkAgrees(doc, min, r);
    forall r | r in RefsIn(n)
      ensures r in s
    {
      RootReachable(LinksOf(doc), RefsIn(n), r);
      forall depth: nat
        ensures AgreesAt(doc, min, r, depth)
      {
        InlineBelow(doc, min, n, depth, r);
      }
    }
    forall r, q | r in s && q in LinksOf(doc)(r)
      ensures q in s
    {
      SuccessorReachable(LinksOf(doc), RefsIn(n), r, q);
      AgreementGoesDown(doc, operations, roots, r, q);
    }
    assert Closed(LinksOf(doc), RefsIn(n), s);
    forall ref | LinkedFrom(doc, n, ref) && Resolve(doc, ref).Some?
      ensures RefKept(doc, operations, roots, ref)
    {
      assert ref in s && AgreesAt(doc, min, ref, 0);
      MinifiedObject(doc, operations, roots, ref);
    }
  }

  lemma AgreementGoesDown(doc: Fields, operations: set<string>, roots: set<string>, r: string, q: string)
    requires Child(doc, PATHS).Some? && FindByRefObject(doc, r).Ok?
    requires LinkAgrees(doc, MinifiedFor(doc, operations, roots), r) && q in Links(doc, r)
    ensures LinkAgrees(doc, MinifiedFor(doc, operations, roots), q)
  {
    var min := MinifiedFor(doc, operations, roots);
    MinifiedObject(doc, operations, roots, r);
    forall depth: nat
      ensures AgreesAt(doc, min, q, depth)
    {
      assert AgreesAt(doc, min, r, depth + 1);
      InlineBelow(doc, min, Resolve(doc, r).value, depth, q);
    }
  }

  // ---------- Kept operations

  /** What is sound is found. */
  ghost predicate AllFound(doc: Fields, roots: set<string>) {
    forall ref | Needed(doc, roots, ref) :: FindByRefObject(doc, ref).Ok?
  }

  lemma SoundIsFound(doc: Fields, roots: set<string>)
    requires forall ref | Needed(doc, roots, ref) :: Sound(doc, ref)
    ensures AllFound(doc, roots)
  {
    forall ref | Needed(doc, roots, ref)
      ensures FindByRefObject(doc, ref).Ok?
    {
      FoundSuccessors(doc, ref);
    }
  }

  /** Everything met while inlining something whose references are needed is needed too. */
  lemma LinkedIsNeeded(doc: Fields, roots: set<string>, n: Node, ref: string)
    requires AllFound(doc, roots) && RefsIn(n) <= roots && LinkedFrom(doc, n, ref)
    ensures Needed(doc, roots, ref)
  {
    var s := iset x | Needed(doc, roots, x);
    forall x | x in RefsIn(n)
      ensures x in s
    {
      RootReachable(SuccessorsOf(doc), roots, x);
    }
    forall x, y | x in s && y in LinksOf(doc)(x)
      ensures y in s
    {
      RefsOfResolve(doc, x);
      FoundSuccessors(doc, x);
      assert y in SuccessorsOf(doc)(x);
      SuccessorReachable(SuccessorsOf(doc), roots, x, y);
    }
    assert Closed(LinksOf(doc), RefsIn(n), s);
  }

  /** References met below `#/paths` lead to entries that survive. */
  ghost predicate PathTargetsSurvive(doc: Fields, operations: set<string>, n: Node) {
    forall ref | LinkedFrom(doc, n, ref) && Resolve(doc, ref).Some? && ParseRef(ref).Some? ::
      ParseRef(ref).value.section == PATHS ==>
        EntrySurvives(doc, operations, ParseRef(ref).value.subsection, ParseRef(ref).value.name)
  }

  /** A node whose references are all collected loses nothing but path targets. */
  lemma CollectedMeaningIff(doc: Fields, operations: set<string>, roots: set<string>, n: Node)
    requires Child(doc, PATHS).Some? && RefsIn(n) <= roots && AllFound(doc, roots)
    ensures Grounded(doc, n)
    ensures LinksKept(doc, operations, roots, n) <==> PathTargetsSurvive(doc, operations, n)
    ensures SameMeaning(doc, MinifiedFor(doc, operations, roots), n) <==> PathTargetsSurvive(doc, operations, n)
  {
    forall ref | LinkedFrom(doc, n, ref)
      ensures FindByRefObject(doc, ref).Ok?
      ensures ParseRef(ref).value.section == COMPONENTS ==>
                NeedsObject(doc, roots, COMPONENTS, ParseRef(ref).value.subsection, ParseRef(ref).value.name)
    {
      LinkedIsNeeded(doc, roots, n, ref);
    }
    NodeMeaningIff(doc, operations, roots, n);
  }

  /** The operations taken for the asked ids keep their meaning, duplicate ids or not,
      exactly when no reference leads to an operation or path item that is dropped. */
  lemma ChosenMeaningIff(doc: Fields, operations: set<string>, choice: Choice, id: string)
    requires Child(doc, PATHS).Some? && id in choice && CollectableBy(doc, choice)
    ensures SameMeaning(doc, MinifiedFor(doc, operations, ChosenRefs(choice)), Obj(choice[id]))
            <==> PathTargetsSurvive(doc, operations, Obj(choice[id]))
  {
    forall r | r in RefsIn(Obj(choice[id]))
      ensures r in ChosenRefs(choice)
    {
    }
    SoundIsFound(doc, ChosenRefs(choice));
    CollectedMeaningIff(doc, operations, ChosenRefs(choice), Obj(choice[id]));
  }

  /** Every surviving operation reads the same at every depth. */
  ghost predicate MeaningPreserved(doc: Fields, operations: set<string>)
    requires Child(doc, PATHS).Some?
  {
    forall path, key | OperationAt(Minified(doc, operations), path, key) ::
      SameMeaning(doc, Minified(doc, operations), Obj(Entry(Minified(doc, operations), path, key).value))
  }

  /** An operation that is kept carries one of the asked ids explicitly. */
  lemma AskedHasId(doc: Fields, operations: set<string>, path: string, key: string)
    requires UniqueIds(doc, operations) && Collectable(doc, operations)
    requires AskedAt(doc, operations, path, key)
    ensures Asked(doc, operations, path, key, OperationIdOf(Entry(doc, path, key).value))
    ensures RefsIn(Obj(Entry(doc, path, key).value)) <= RootRefs(doc, operations)
  {
    forall r | r in RefsIn(Obj(Entry(doc, path, key).value))
      ensures r in RootRefs(doc, operations)
    {
      assert Asked(doc, operations, path, key, OperationIdOf(Entry(doc, path, key).value));
      RootRefMember(doc, operations, r);
    }
  }

  /** Minification preserves the meaning of every kept operation exactly when no
      reference met in one leads to an operation or path item that is dropped. */
  lemma MeaningPreservedIff(doc: Fields, operations: set<string>)
    requires Minifiable(doc, operations)
    ensures MeaningPreserved(doc, operations)
            <==> forall path, key | AskedAt(doc, operations, path, key) ::
                   PathTargetsSurvive(doc, operations, Obj(Entry(doc, path, key).value))
  {
    var roots := RootRefs(doc, operations);
    SoundIsFound(doc, roots);
    forall path, key
      ensures OperationAt(Minified(doc, operations), path, key) <==> AskedAt(doc, operations, path, key)
      ensures AskedAt(doc, operations, path, key) ==>
                && Entry(Minified(doc, operations), path, key) == Entry(doc, path, key)
                && (SameMeaning(doc, Minified(doc, operations), Obj(Entry(doc, path, key).value))
                    <==> PathTargetsSurvive(doc, operations, Obj(Entry(doc, path, key).value)))
    {
      OperationsExact(doc, operations, roots, path, key);
      if AskedAt(doc, operations, path, key) {
        AskedHasId(doc, operations, path, key);
        CollectedMeaningIff(doc, operations, roots, Obj(Entry(doc, path, key).value));
      }
    }
  }

  lemma NoSlashNoPrefix(s: string)
    requires '/' !in s
    ensures !HasPrefix(s, "/")
  {
    if |s| > 0 {
      assert s[..1][0] == s[0];
    }
  }

  /** A segment of a reference has no slash, so in a document whose path names begin
      with one, no reference reaches an operation or a path item. */
  lemma RefsMissPathItems(doc: Fields, operations: set<string>, ref: string)
    requires PathsBeginWithSlash(doc) && FindByRefObject(doc, ref).Ok?
    requires ParseRef(ref).value.section == PATHS
    ensures EntrySurvives(doc, operations, ParseRef(ref).value.subsection, ParseRef(ref).value.name)
  {
    var p := ParseRef(ref).value;
    ParseRefMeaning(ref, p);
    assert '/' !in [p.section, p.subsection, p.name][1];
    assert p.subsection in Child(doc, PATHS).GetOr(map[]);
    NoSlashNoPrefix(p.subsection);
  }

  lemma ConformingTargetsSurvive(doc: Fields, operations: set<string>, n: Node)
    requires PathsBeginWithSlash(doc) && Grounded(doc, n)
    ensures PathTargetsSurvive(doc, operations, n)
  {
    forall ref | LinkedFrom(doc, n, ref) && ParseRef(ref).value.section == PATHS
      ensures EntrySurvives(doc, operations, ParseRef(ref).value.subsection, ParseRef(ref).value.name)
    {
      RefsMissPathItems(doc, operations, ref);
    }
  }

  /** Hence in every such document the kept operation objects keep their meaning. */
  lemma ConformingMeaningPreserved(doc: Fields, operations: set<string>)
    requires Minifiable(doc, operations) && PathsBeginWithSlash(doc)
    ensures MeaningPreserved(doc, operations)
  {
    SoundIsFound(doc, RootRefs(doc, operations));
    forall path, key | AskedAt(doc, operations, path, key)
      ensures PathTargetsSurvive(doc, operations, Obj(Entry(doc, path, key).value))
    {
      AskedHasId(doc, operations, path, key);
      CollectedMeaningIff(doc, operations, RootRefs(doc, operations), Obj(Entry(doc, path, key).value));
      ConformingTargetsSurvive(doc, operations, Obj(Entry(doc, path, key).value));
    }
    MeaningPreservedIff(doc, operations);
  }

  // ---------- What a path item holds besides operations

  /** Everything but operations stays as it is: other sections, other component kinds,
      extensions, and what a surviving path item holds besides operations. */
  lemma RestUntouched(doc: Fields, operations: set<string>, roots: set<string>)
    requires Child(doc, PATHS).Some?
    ensures var min := MinifiedFor(doc, operations, roots);
            && min.Keys == doc.Keys
            && (forall section | section in doc && section != PATHS && section != COMPONENTS ::
                  min[section] == doc[section])
            && (Child(doc, COMPONENTS).Some? ==>
                var before, after := Child(doc, COMPONENTS).value, Child(min, COMPONENTS).value;
                after.Keys == before.Keys
                && forall kind | kind in before && kind !in FILTERED :: after[kind] == before[kind])
    ensures var before, after := Child(doc, PATHS).value, Child(MinifiedFor(doc, operations, roots), PATHS).value;
            && (forall path | path in before && IsExtension(path) :: path in after && after[path] == before[path])
            && (forall path | path in after && !IsExtension(path) && before[path].Obj? ::
                  after[path].Obj? && Rest(after[path].fields) == Rest(before[path].fields))
  {
  }

  /** Parameters, servers and the like, which the path item's operations share. */
  function Rest(item: Fields): Fields {
    map k | k in item && k !in METHODS :: item[k]
  }

  /** The rest of the path item of that name. */
  function RestAt(doc: Fields, path: string): Fields {
    match Child(Child(doc, PATHS).GetOr(map[]), path)
    case None => map[]
    case Some(item) => Rest(item)
  }

  lemma RestKept(doc: Fields, operations: set<string>, roots: set<string>, path: string)
    requires Child(doc, PATHS).Some? && !IsExtension(path)
    requires path in Child(MinifiedFor(doc, operations, roots), PATHS).value
    ensures RestAt(MinifiedFor(doc, operations, roots), path) == RestAt(doc, path)
  {
    RestUntouched(doc, operations, roots);
  }

  /** The filtered components met from a node are all needed by the asked operations. */
  ghost predicate LinkedComponentsNeeded(doc: Fields, operations: set<string>, n: Node) {
    forall ref | LinkedFrom(doc, n, ref) && Resolve(doc, ref).Some? && ParseRef(ref).Some? ::
      var p := ParseRef(ref).value;
      p.section == COMPONENTS && p.subsection in FILTERED ==>
        NeedsObject(doc, RootRefs(doc, operations), COMPONENTS, p.subsection, p.name)
  }

  ghost predicate SameAt(doc: Fields, doc': Fields, key: string, v: Node) {
    forall depth: nat :: InlineAt(doc', key, v, depth) == InlineAt(doc, key, v, depth)
  }

  /** A map reads the same when each of its fields does. */
  lemma FieldsMeaning(doc: Fields, doc': Fields, m: Fields)
    ensures SameMeaning(doc, doc', Obj(m)) <==> forall k | k in m :: SameAt(doc, doc', k, m[k])
  {
    if SameMeaning(doc, doc', Obj(m)) {
      forall k, depth: nat | k in m
        ensures InlineAt(doc', k, m[k], depth) == InlineAt(doc, k, m[k], depth)
      {
        assert Inline(doc', Obj(m), depth).fields[k] == Inline(doc, Obj(m), depth).fields[k];
      }
    }
    if forall k | k in m :: SameAt(doc, doc', k, m[k]) {
      forall depth: nat
        ensures Inline(doc', Obj(m), depth) == Inline(doc, Obj(m), depth)
      {
        assert forall k | k in m :: InlineAt(doc', k, m[k], depth) == InlineAt(doc, k, m[k], depth);
      }
    }
  }

  /** A path item reads the same when its rest and each of its operations do. */
  lemma ItemMeaning(doc: Fields, doc': Fields, item: Fields)
    ensures SameMeaning(doc, doc', Obj(item))
            <==> && SameMeaning(doc, doc', Obj(Rest(item)))
                 && forall k | k in item && k in METHODS :: SameMeaning(doc, doc', item[k])
  {
    FieldsMeaning(doc, doc', item);
    FieldsMeaning(doc, doc', Rest(item));
    forall k | k in item && k in METHODS
      ensures SameAt(doc, doc', k, item[k]) <==> SameMeaning(doc, doc', item[k])
    {
      assert k != REF;
      assert forall d: nat, e | e in [doc, doc'] :: InlineAt(e, k, item[k], d) == Inline(e, item[k], d);
    }
    assert forall k | k in Rest(item) :: Rest(item)[k] == item[k];
  }

  lemma SurvivingItem(doc: Fields, operations: set<string>, path: string)
    requires Child(doc, PATHS).Some? && !IsExtension(path)
    requires path in Child(Minified(doc, operations), PATHS).value
    ensures Child(Child(Minified(doc, operations), PATHS).value, path).Some?
    ensures var item := Child(Child(Minified(doc, operations), PATHS).value, path).value;
            forall k | k in item && k in METHODS ::
              OperationAt(Minified(doc, operations), path, k)
              && item[k] == Obj(Entry(Minified(doc, operations), path, k).value)
  {
    var paths := Child(doc, PATHS).value;
    assert Child(Minified(doc, operations), PATHS) == Some(MinifyPaths(paths, operations));
  }

  /** A surviving path item as a whole, operations and all that they share, keeps its
      meaning exactly when the filtered components met from what they share are needed by
      the asked operations anyway: those references are not collected. */
  lemma PathItemMeaningIff(doc: Fields, operations: set<string>, path: string)
    requires Minifiable(doc, operations) && PathsBeginWithSlash(doc)
    requires path in Child(Minified(doc, operations), PATHS).value && !IsExtension(path)
    requires Grounded(doc, Obj(RestAt(doc, path)))
    ensures RestAt(Minified(doc, operations), path) == RestAt(doc, path)
    ensures SameMeaning(doc, Minified(doc, operations), Child(Minified(doc, operations), PATHS).value[path])
            <==> LinkedComponentsNeeded(doc, operations, Obj(RestAt(doc, path)))
  {
    var roots := RootRefs(doc, operations);
    var n := Obj(RestAt(doc, path));
    SurvivingItem(doc, operations, path);
    var item := Child(Child(Minified(doc, operations), PATHS).value, path).value;
    RestKept(doc, operations, roots, path);
    assert Rest(item) == RestAt(doc, path);
    NodeMeaningIff(doc, operations, roots, n);
    ConformingTargetsSurvive(doc, operations, n);
    ConformingMeaningPreserved(doc, operations);
    ItemMeaning(doc, Minified(doc, operations), item);
  }

  /** A reference in the rest of a surviving path item to something that is not kept is
      still there, and dangles. */
  lemma PathLevelRefDangles(doc: Fields, operations: set<string>, path: string, ref: string)
    requires Child(doc, PATHS).Some? && !IsExtension(path)
    requires path in Child(Minified(doc, operations), PATHS).value
    requires ref in RefsIn(Obj(RestAt(doc, path))) && FindByRefObject(doc, ref).Ok?
    requires !RefKept(doc, operations, RootRefs(doc, operations), ref)
    ensures ref in RefsIn(Obj(Minified(doc, operations)))
    ensures !FindByRefObject(Minified(doc, operations), ref).Ok? && Resolve(Minified(doc, operations), ref).None?
  {
    var min := Minified(doc, operations);
    var after := Child(min, PATHS).value;
    RestKept(doc, operations, RootRefs(doc, operations), path);
    MinifiedObject(doc, operations, RootRefs(doc, operations), ref);
    var k :| k in RestAt(min, path) && ref in RefsAt(k, RestAt(min, path)[k]);
    assert after[path].Obj? && k in after[path].fields && after[path].fields[k] == RestAt(min, path)[k];
    assert ref in RefsIn(after[path]);
    RefsOfField(after, path);
    RefsOfField(min, PATHS);
  }

  // ---------- Minifying for more

  lemma RootRefsGrow(doc: Fields, small: set<string>, big: set<string>)
    requires small <= big
    ensures RootRefs(doc, small) <= RootRefs(doc, big)
  {
    forall r | r in RootRefs(doc, small)
      ensures r in RootRefs(doc, big)
    {
      var path, key, id :| Asked(doc, small, path, key, id) && r in RefsIn(Obj(Entry(doc, path, key).value));
      assert Asked(doc, big, path, key, id);
    }
  }

  lemma NeededForMore(doc: Fields, big: set<string>, small: set<string>, ref: string)
    requires small <= big && Needed(doc, RootRefs(doc, small), ref)
    ensures Needed(doc, RootRefs(doc, big), ref)
  {
    RootRefsGrow(doc, small, big);
    Monotone(SuccessorsOf(doc), RootRefs(doc, small), SuccessorsOf(doc), RootRefs(doc, big), ref);
  }

  lemma KeptForMore(doc: Fields, big: set<string>, small: set<string>, ref: string)
    requires small <= big && ParseRef(ref).Some? && RefKept(doc, small, RootRefs(doc, small), ref)
    ensures RefKept(doc, big, RootRefs(doc, big), ref)
  {
    var p := ParseRef(ref).value;
    forall r | Needed(doc, RootRefs(doc, small), r)
      ensures Needed(doc, RootRefs(doc, big), r)
    {
      NeededForMore(doc, big, small, r);
    }
    forall m | AskedAt(doc, small, p.subsection, m)
      ensures AskedAt(doc, big, p.subsection, m)
    {
    }
  }

  /** Asking for more operations keeps at least as much: every entry and every object of
      the smaller document is in the larger one, unchanged. No document is excluded. */
  lemma MinifiedMonotone(doc: Fields, big: set<string>, small: set<string>, path: string, key: string, ref: string)
    requires small <= big && Child(doc, PATHS).Some?
    ensures Entry(Minified(doc, small), path, key).Some? ==>
              Entry(Minified(doc, big), path, key) == Entry(Minified(doc, small), path, key)
    ensures FindByRefObject(Minified(doc, small), ref).Ok? ==>
              FindByRefObject(Minified(doc, big), ref) == FindByRefObject(Minified(doc, small), ref)
  {
    MinifiedEntry(doc, small, RootRefs(doc, small), path, key);
    MinifiedEntry(doc, big, RootRefs(doc, big), path, key);
    forall m | AskedAt(doc, small, path, m)
      ensures AskedAt(doc, big, path, m)
    {
    }
    if FindByRefObject(Minified(doc, small), ref).Ok? {
      FoundInOriginal(doc, small, RootRefs(doc, small), ref);
      KeptForMore(doc, big, small, ref);
      MinifiedObject(doc, big, RootRefs(doc, big), ref);
    }
  }

  // ---------- Minifying a minified document

  ghost predicate Conforming(doc: Fields, operations: set<string>) {
    Minifiable(doc, operations) && PathsBeginWithSlash(doc) && IdsOnOperations(doc, operations)
  }

  lemma NeededObjectKept(doc: Fields, operations: set<string>, ref: string)
    requires Conforming(doc, operations) && Needed(doc, RootRefs(doc, operations), ref)
    ensures FindByRefObject(Minified(doc, operations), ref) == FindByRefObject(doc, ref)
  {
    FoundSuccessors(doc, ref);
    MinifiedObject(doc, operations, RootRefs(doc, operations), ref);
    if ParseRef(ref).value.section == PATHS {
      RefsMissPathItems(doc, operations, ref);
    }
  }

  lemma AskedKept(doc: Fields, big: set<string>, small: set<string>, path: string, key: string, id: string)
    requires small <= big && Conforming(doc, big)
    ensures Asked(Minified(doc, big), small, path, key, id) <==> Asked(doc, small, path, key, id)
    ensures Asked(doc, small, path, key, id) ==> Entry(Minified(doc, big), path, key) == Entry(doc, path, key)
  {
    MinifiedEntry(doc, big, RootRefs(doc, big), path, key);
    if Asked(doc, small, path, key, id) {
      assert Asked(doc, big, path, key, id);
      assert AskedAt(doc, big, path, key);
    }
  }

  lemma RootRefsKept(doc: Fields, big: set<string>, small: set<string>)
    requires small <= big && Conforming(doc, big)
    ensures RootRefs(Minified(doc, big), small) == RootRefs(doc, small)
  {
    var min := Minified(doc, big);
    forall r
      ensures r in RootRefs(min, small) <==> r in RootRefs(doc, small)
    {
      RootRefMember(min, small, r);
      RootRefMember(doc, small, r);
      forall path, key, id
        ensures Asked(min, small, path, key, id) <==> Asked(doc, small, path, key, id)
        ensures Asked(doc, small, path, key, id) ==> Entry(min, path, key) == Entry(doc, path, key)
      {
        AskedKept(doc, big, small, path, key, id);
      }
    }
  }

  /** What a smaller set of operations needs is the same before and after. */
  lemma NeededKept(doc: Fields, big: set<string>, small: set<string>, ref: string)
    requires small <= big && Conforming(doc, big)
    ensures Needed(Minified(doc, big), RootRefs(Minified(doc, big), small), ref)
            <==> Needed(doc, RootRefs(doc, small), ref)
  {
    var min := Minified(doc, big);
    var roots := RootRefs(doc, small);
    RootRefsKept(doc, big, small);
    if Needed(min, roots, ref) {
      forall q
        ensures SuccessorsOf(min)(q) <= SuccessorsOf(doc)(q)
      {
        FoundSuccessors(min, q);
        FoundSuccessors(doc, q);
        if FindByRefObject(min, q).Ok? {
          FoundInOriginal(doc, big, RootRefs(doc, big), q);
        }
      }
      Monotone(SuccessorsOf(min), roots, SuccessorsOf(doc), roots, ref);
    }
    if Needed(doc, roots, ref) {
      forall q | Reachable(SuccessorsOf(doc), roots, q)
        ensures SuccessorsOf(doc)(q) <= SuccessorsOf(min)(q)
      {
        NeededForMore(doc, big, small, q);
        NeededObjectKept(doc, big, q);
        FoundSuccessors(min, q);
        FoundSuccessors(doc, q);
      }
      Monotone(SuccessorsOf(doc), roots, SuccessorsOf(min), roots, ref);
    }
  }

  lemma NeedsObjectKept(doc: Fields, big: set<string>, small: set<string>, kind: string, name: string)
    requires small <= big && Conforming(doc, big)
    ensures NeedsObject(Minified(doc, big), RootRefs(Minified(doc, big), small), COMPONENTS, kind, name)
            <==> NeedsObject(doc, RootRefs(doc, small), COMPONENTS, kind, name)
    ensures NeedsObject(doc, RootRefs(doc, small), COMPONENTS, kind, name)
            ==> NeedsObject(doc, RootRefs(doc, big), COMPONENTS, kind, name)
  {
    forall ref
      ensures Needed(Minified(doc, big), RootRefs(Minified(doc, big), small), ref)
              <==> Needed(doc, RootRefs(doc, small), ref)
      ensures Needed(doc, RootRefs(doc, small), ref) ==> Needed(doc, RootRefs(doc, big), ref)
    {
      NeededKept(doc, big, small, ref);
      if Needed(doc, RootRefs(doc, small), ref) {
        NeededForMore(doc, big, small, ref);
      }
    }
  }

  /** A minified document can be minified again by anything it was minified for. */
  lemma StillCollectable(doc: Fields, big: set<string>, small: set<string>)
    requires small <= big && Conforming(doc, big)
    ensures Minifiable(Minified(doc, big), small)
  {
    var min := Minified(doc, big);
    forall path, key
      ensures Entry(min, path, key).Some? ==> Entry(min, path, key) == Entry(doc, path, key)
    {
      MinifiedEntry(doc, big, RootRefs(doc, big), path, key);
    }
    forall path, key, id
      ensures Asked(min, small, path, key, id) <==> Asked(doc, small, path, key, id)
      ensures Asked(doc, small, path, key, id) ==> Entry(min, path, key) == Entry(doc, path, key)
      ensures Asked(doc, small, path, key, id) ==> Asked(doc, big, path, key, id)
    {
      AskedKept(doc, big, small, path, key, id);
    }
    forall id | id in small
      ensures HasOperation(min, id)
    {
      assert HasOperation(doc, id);
      var path, key :| Entry(doc, path, key).Some? && HasId(Entry(doc, path, key).value, id);
      assert Asked(doc, small, path, key, id);
    }
    forall ref | Needed(min, RootRefs(min, small), ref)
      ensures Sound(min, ref)
    {
      NeededKept(doc, big, small, ref);
      NeededForMore(doc, big, small, ref);
      NeededObjectKept(doc, big, ref);
      FoundSuccessors(min, ref);
      FoundSuccessors(doc, ref);
    }
  }

  /** Minifying by more and then by less is minifying by less. */
  lemma MinificationsCompose(doc: Fields, big: set<string>, small: set<string>)
    requires small <= big && Conforming(doc, big)
    ensures Minified(Minified(doc, big), small) == Minified(doc, small)
  {
    var min := Minified(doc, big);
    var paths := Child(doc, PATHS).value;
    assert Child(min, PATHS) == Some(MinifyPaths(paths, big));
    PathsCompose(paths, big, small);
    if Child(doc, COMPONENTS).Some? {
      KeptComponentsCompose(doc, big, small, Child(doc, COMPONENTS).value);
    }
    SectionsCompose(doc, big, small);
  }

  lemma SectionsCompose(doc: Fields, big: set<string>, small: set<string>)
    requires Child(doc, PATHS).Some?
    requires MinifyPaths(MinifyPaths(Child(doc, PATHS).value, big), small)
             == MinifyPaths(Child(doc, PATHS).value, small)
    requires Child(doc, COMPONENTS).Some? ==>
               var components := Child(doc, COMPONENTS).value;
               MinifyComponents(Minified(doc, big), RootRefs(Minified(doc, big), small),
                                MinifyComponents(doc, RootRefs(doc, big), components))
               == MinifyComponents(doc, RootRefs(doc, small), components)
    ensures Minified(Minified(doc, big), small) == Minified(doc, small)
  {
  }

  lemma KeptComponentsCompose(doc: Fields, big: set<string>, small: set<string>, components: Fields)
    requires small <= big && Conforming(doc, big)
    ensures MinifyComponents(Minified(doc, big), RootRefs(Minified(doc, big), small),
                             MinifyComponents(doc, RootRefs(doc, big), components))
            == MinifyComponents(doc, RootRefs(doc, small), components)
  {
    forall kind, name
      ensures NeedsAgree(Minified(doc, big), RootRefs(Minified(doc, big), small), doc, RootRefs(doc, big),
                         RootRefs(doc, small), kind, name)
    {
      NeedsObjectKept(doc, big, small, kind, name);
    }
    ComponentsCompose(Minified(doc, big), RootRefs(Minified(doc, big), small), doc, RootRefs(doc, big),
                      RootRefs(doc, small), components);
  }

  lemma ItemCompose(n: Node, big: set<string>, small: set<string>)
    requires small <= big
    ensures MinifyItem(Obj(MinifyItem(n, big)), small) == MinifyItem(n, small)
    ensures IsPathItemEmpty(MinifyItem(n, big)) ==> IsPathItemEmpty(MinifyItem(n, small))
  {
  }

  lemma PathsCompose(paths: Fields, big: set<string>, small: set<string>)
    requires small <= big
    ensures MinifyPaths(MinifyPaths(paths, big), small) == MinifyPaths(paths, small)
  {
    var once := MinifyPaths(paths, big);
    forall p | p in paths
      ensures p in MinifyPaths(once, small) <==> p in MinifyPaths(paths, small)
      ensures p in MinifyPaths(paths, small) ==> MinifyPaths(once, small)[p] == MinifyPaths(paths, small)[p]
    {
      ItemCompose(paths[p], big, small);
      assert p in once && !IsExtension(p) ==> once[p] == Obj(MinifyItem(paths[p], big));
    }
  }

  /** The components some roots need of a document, from those that others need of
      another, when the former are the components that fewer roots need of that. */
  ghost predicate NeedsAgree(min: Fields, roots: set<string>, doc: Fields, big: set<string>, small: set<string>,
                             kind: string, name: string) {
    && (NeedsObject(min, roots, COMPONENTS, kind, name) <==> NeedsObject(doc, small, COMPONENTS, kind, name))
    && (NeedsObject(doc, small, COMPONENTS, kind, name) ==> NeedsObject(doc, big, COMPONENTS, kind, name))
  }

  lemma KindCompose(min: Fields, roots: set<string>, doc: Fields, big: set<string>, small: set<string>,
                    kind: string, names: Fields)
    requires forall name :: NeedsAgree(min, roots, doc, big, small, kind, name)
    ensures MinifyKind(min, roots, kind, MinifyKind(doc, big, kind, names)) == MinifyKind(doc, small, kind, names)
  {
    forall name
      ensures NeedsObject(min, roots, COMPONENTS, kind, name) && NeedsObject(doc, big, COMPONENTS, kind, name)
              <==> NeedsObject(doc, small, COMPONENTS, kind, name)
    {
      assert NeedsAgree(min, roots, doc, big, small, kind, name);
    }
  }

  lemma ComponentsCompose(min: Fields, roots: set<string>, doc: Fields, big: set<string>, small: set<string>,
                          components: Fields)
    requires forall kind, name :: NeedsAgree(min, roots, doc, big, small, kind, name)
    ensures MinifyComponents(min, roots, MinifyComponents(doc, big, components))
            == MinifyComponents(doc, small, components)
  {
    forall kind | kind in components && components[kind].Obj?
      ensures MinifyKind(min, roots, kind, MinifyKind(doc, big, kind, components[kind].fields))
              == MinifyKind(doc, small, kind, components[kind].fields)
    {
      KindCompose(min, roots, doc, big, small, kind, components[kind].fields);
    }
  }

  lemma MinificationIdempotent(doc: Fields, operations: set<string>)
    requires Conforming(doc, operations)
    ensures Minified(Minified(doc, operations), operations) == Minified(doc, operations)
  {
    MinificationsCompose(doc, operations, operations);
  }

  /** Nothing more could be dropped: a filtered component survives exactly when the
      operations of the minified document still reach it there. */
  lemma ComponentsExact(doc: Fields, operations: set<string>, kind: string, name: string)
    requires Conforming(doc, operations) && kind in FILTERED
    requires Child(doc, COMPONENTS).Some? && Child(Child(doc, COMPONENTS).value, kind).Some?
    ensures var before := Child(Child(doc, COMPONENTS).value, kind).value;
            var min := Minified(doc, operations);
            var after := Child(Child(min, COMPONENTS).value, kind).value;
            && (name in after <==> name in before
                                   && NeedsObject(min, RootRefs(min, operations), COMPONENTS, kind, name))
            && (name in after ==> after[name] == before[name])
  {
    NeedsObjectKept(doc, operations, operations, kind, name);
  }
}
