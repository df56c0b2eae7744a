/** Two documents that lose something. One is outside the OpenAPI rule that path names
    begin with a slash: the one way in which a reference can lead to an operation that
    minification drops. The other conforms, and shares a parameter among the operations of
    a path item, which the collector does not see. */
module MinifierExample {
  import opened Minifier
  import opened MinifierProperties
  import opened OpenApiTree
  import opened Reachability
  import opened RefCollector
  import opened Strings
  import opened Wrappers

  const LINK := Join(["#", PATHS, "second", "get"], '/')
  const FIRST: Fields := map[OPERATION_ID := Str("a"), "schema" := Obj(map[REF := Str(LINK)])]
  const SECOND: Fields := map[OPERATION_ID := Str("b")]
  const ITEMS: Fields := map["first" := Obj(map["get" := Obj(FIRST)]), "second" := Obj(map["get" := Obj(SECOND)])]
  const DOC: Fields := map[PATHS := Obj(ITEMS)]

  lemma ExampleLink()
    ensures LeadsToSecond(LINK)
  {
    var parts := ["#", PATHS, "second", "get"];
    SplitJoin(parts, '/');
    assert parts + [] == parts;
    ParseRefMeaning(LINK, RefPath(PATHS, "second", "get"));
  }

  lemma ExampleEntries()
    ensures HasTwoEntries(DOC, FIRST, SECOND)
  {
  }

  lemma ExampleRefs()
    ensures OneRefersToOther(FIRST, SECOND, LINK)
  {
    var schema: Fields := map[REF := Str(LINK)];
    assert RefsAt(REF, schema[REF]) == {LINK};
    assert RefsIn(Obj(schema)) == {LINK};
    assert FIRST["schema"] == Obj(schema);
    assert RefsAt(OPERATION_ID, FIRST[OPERATION_ID]) == {};
    assert FIRST.Keys == {OPERATION_ID, "schema"};
    forall r
      ensures r in RefsIn(Obj(FIRST)) <==> r == LINK
    {
      if r == LINK {
        assert r in RefsAt("schema", FIRST["schema"]);
      }
    }
    assert !HasBadRef(Obj(schema));
    assert RefsAt(OPERATION_ID, SECOND[OPERATION_ID]) == {};
  }

  /** What the argument uses of the example: two operations, of which the first
      refers to the second. */
  ghost predicate TwoOperations(doc: Fields, first: Fields, second: Fields, link: string) {
    HasTwoEntries(doc, first, second) && OneRefersToOther(first, second, link) && LeadsToSecond(link)
  }

  ghost predicate HasTwoEntries(doc: Fields, first: Fields, second: Fields) {
    && Child(doc, PATHS).Some?
    && forall path, key :: Entry(doc, path, key) == if key != "get" then None
                                                    else if path == "first" then Some(first)
                                                    else if path == "second" then Some(second) else None
  }

  ghost predicate OneRefersToOther(first: Fields, second: Fields, link: string) {
    && HasId(first, "a") && HasId(second, "b")
    && RefsIn(Obj(first)) == {link} && RefsIn(Obj(second)) == {}
    && !HasBadRef(Obj(first)) && !HasBadRef(Obj(second))
  }

  predicate LeadsToSecond(link: string) {
    ParseRef(link) == Some(RefPath(PATHS, "second", "get")) && |Split(link, '/')| == 4
  }

  lemma LinkFound(doc: Fields, first: Fields, second: Fields, link: string)
    requires TwoOperations(doc, first, second, link)
    ensures FindByRefObject(doc, link) == Ok(second) && Resolve(doc, link).Some?
  {
    assert Entry(doc, "second", "get") == Some(second);
    ResolveThroughObject(doc, link);
  }

  lemma LinkLeadsNowhere(doc: Fields, first: Fields, second: Fields, link: string)
    requires TwoOperations(doc, first, second, link)
    ensures SuccessorsOf(doc)(link) == {}
  {
    LinkFound(doc, first, second, link);
    FoundSuccessors(doc, link);
  }

  lemma OnlyLinkNeeded(doc: Fields, first: Fields, second: Fields, link: string, ref: string)
    requires TwoOperations(doc, first, second, link)
    requires Needed(doc, RootRefs(doc, {"a"}), ref)
    ensures ref == link
  {
    var s := iset{link};
    LinkFound(doc, first, second, link);
    forall r | r in RootRefs(doc, {"a"})
      ensures r in s
    {
      RootRefMember(doc, {"a"}, r);
      var path, key, id :| Asked(doc, {"a"}, path, key, id) && r in RefsIn(Obj(Entry(doc, path, key).value));
    }
    LinkLeadsNowhere(doc, first, second, link);
    assert Closed(SuccessorsOf(doc), RootRefs(doc, {"a"}), s);
  }

  lemma TwoMinifiable(doc: Fields, first: Fields, second: Fields, link: string)
    requires TwoOperations(doc, first, second, link)
    ensures Minifiable(doc, {"a"})
  {
    assert HasId(Entry(doc, "first", "get").value, "a");
    assert "get" in METHODS;
    LinkFound(doc, first, second, link);
    forall ref | Needed(doc, RootRefs(doc, {"a"}), ref)
      ensures Sound(doc, ref)
    {
      OnlyLinkNeeded(doc, first, second, link, ref);
      FoundSuccessors(doc, link);
    }
  }

  lemma TwoLoseMeaning(doc: Fields, first: Fields, second: Fields, link: string)
    requires TwoOperations(doc, first, second, link)
    ensures Minifiable(doc, {"a"}) && !MeaningPreserved(doc, {"a"})
  {
    TwoMinifiable(doc, first, second, link);
    LinkFound(doc, first, second, link);
    assert "first"[..2][0] == 'f' && "second"[..2][0] == 's' && "x-"[0] == 'x';
    assert AskedAt(doc, {"a"}, "first", "get");
    RootReachable(LinksOf(doc), RefsIn(Obj(first)), link);
    assert LinkedFrom(doc, Obj(first), link);
    assert forall m :: !AskedAt(doc, {"a"}, "second", m);
    assert !PathTargetsSurvive(doc, {"a"}, Obj(Entry(doc, "first", "get").value));
    MeaningPreservedIff(doc, {"a"});
  }

  /** Collection succeeds, yet the kept operation has lost what it refers to. */
  lemma MeaningLost() returns (doc: Fields, operations: set<string>)
    ensures doc == DOC && operations == {"a"}
    ensures Minifiable(doc, operations) && !MeaningPreserved(doc, operations)
  {
    ExampleEntries();
    ExampleRefs();
    ExampleLink();
    doc, operations := DOC, {"a"};
    TwoLoseMeaning(doc, FIRST, SECOND, LINK);
  }

  // ---------- A parameter shared by the operations of a path item

  const PARAMETER_LINK := Join(["#", COMPONENTS, "parameters", "P"], '/')
  const GET: Fields := map[OPERATION_ID := Str("a")]
  const PARAMETER: Node := Obj(map[REF := Str(PARAMETER_LINK)])
  const ITEM: Fields := map["get" := Obj(GET), "parameters" := Arr([PARAMETER])]
  const PARAMETERS: Fields := map["parameters" := Obj(map["P" := Obj(map[])])]
  const SHARING: Fields := map[PATHS := Obj(map["/x" := Obj(ITEM)]), COMPONENTS := Obj(PARAMETERS)]

  /** What the argument uses of the example: one operation, which refers to nothing, and
      a reference beside it to a parameter. */
  ghost predicate SharesParameter(doc: Fields, get: Fields, link: string) {
    HasOneEntry(doc, get) && RefersToNothing(get)
    && LeadsToParameter(doc, link) && link in RefsIn(Obj(RestAt(doc, "/x")))
  }

  ghost predicate HasOneEntry(doc: Fields, get: Fields) {
    && Child(doc, PATHS).Some? && PathsBeginWithSlash(doc)
    && forall path, key :: Entry(doc, path, key) == if path == "/x" && key == "get" then Some(get) else None
  }

  ghost predicate RefersToNothing(get: Fields) {
    HasId(get, "a") && RefsIn(Obj(get)) == {} && !HasBadRef(Obj(get))
  }

  predicate LeadsToParameter(doc: Fields, link: string) {
    ParseRef(link) == Some(RefPath(COMPONENTS, "parameters", "P")) && FindByRefObject(doc, link).Ok?
  }

  lemma NothingNeeded(doc: Fields, get: Fields, link: string, ref: string)
    requires SharesParameter(doc, get, link)
    ensures !Needed(doc, RootRefs(doc, {"a"}), ref)
  {
    var s: iset<string> := iset{};
    forall r
      ensures r !in RootRefs(doc, {"a"})
    {
      RootRefMember(doc, {"a"}, r);
    }
    assert Closed(SuccessorsOf(doc), RootRefs(doc, {"a"}), s);
  }

  lemma SharingConforms(doc: Fields, get: Fields, link: string)
    requires SharesParameter(doc, get, link)
    ensures Conforming(doc, {"a"}) && AskedAt(doc, {"a"}, "/x", "get")
  {
    assert "/x"[..2][0] == '/' && "x-"[0] == 'x';
    assert "get" in METHODS;
    assert HasId(Entry(doc, "/x", "get").value, "a");
    forall ref
      ensures !Needed(doc, RootRefs(doc, {"a"}), ref)
    {
      NothingNeeded(doc, get, link, ref);
    }
  }

  lemma SharedDangles(doc: Fields, get: Fields, link: string)
    requires SharesParameter(doc, get, link)
    ensures Conforming(doc, {"a"}) && DanglesAfter(doc, {"a"}, link)
  {
    SharingConforms(doc, get, link);
    MinifiedEntry(doc, {"a"}, RootRefs(doc, {"a"}), "/x", "get");
    forall ref
      ensures !Needed(doc, RootRefs(doc, {"a"}), ref)
    {
      NothingNeeded(doc, get, link, ref);
    }
    assert !IsExtension("/x");
    assert "parameters" in FILTERED;
    PathLevelRefDangles(doc, {"a"}, "/x", link);
  }

  /** A reference of the minified document that has lost its target. */
  ghost predicate DanglesAfter(doc: Fields, operations: set<string>, ref: string)
    requires Child(doc, PATHS).Some?
  {
    && FindByRefObject(doc, ref).Ok? && ref in RefsIn(Obj(Minified(doc, operations)))
    && !FindByRefObject(Minified(doc, operations), ref).Ok?
  }

  lemma SharingLink()
    ensures LeadsToParameter(SHARING, PARAMETER_LINK)
  {
    var parts := ["#", COMPONENTS, "parameters", "P"];
    SplitJoin(parts, '/');
    assert parts + [] == parts;
    ParseRefMeaning(PARAMETER_LINK, RefPath(COMPONENTS, "parameters", "P"));
    assert Child(SHARING, COMPONENTS) == Some(PARAMETERS);
  }

  lemma SharingEntries()
    ensures HasOneEntry(SHARING, GET)
  {
    assert Child(SHARING, PATHS) == Some(map["/x" := Obj(ITEM)]);
    assert HasPrefix("/x", "/");
  }

  lemma SharingRefs()
    ensures RefersToNothing(GET) && PARAMETER_LINK in RefsIn(Obj(RestAt(SHARING, "/x")))
  {
    assert RefsAt(OPERATION_ID, GET[OPERATION_ID]) == {};
    assert Child(SHARING, PATHS) == Some(map["/x" := Obj(ITEM)]);
    assert RestAt(SHARING, "/x") == Rest(ITEM);
    var m: Fields := map[REF := Str(PARAMETER_LINK)];
    assert PARAMETER_LINK in RefsAt(REF, m[REF]);
    assert PARAMETER_LINK in RefsIn(PARAMETER);
    assert [PARAMETER][0] == PARAMETER;
    assert PARAMETER_LINK in RefsIn(Arr([PARAMETER]));
    assert PARAMETER_LINK in RefsAt("parameters", Rest(ITEM)["parameters"]);
  }

  /** A conforming document whose minification has a dangling reference. */
  lemma ParameterLost() returns (doc: Fields, operations: set<string>, link: string)
    ensures doc == SHARING && operations == {"a"}
    ensures Conforming(doc, operations) && DanglesAfter(doc, operations, link)
  {
    SharingEntries();
    SharingRefs();
    SharingLink();
    doc, operations, link := SHARING, {"a"}, PARAMETER_LINK;
    SharedDangles(doc, GET, link);
  }
}
