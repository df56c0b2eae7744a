/** An OpenAPI document as the tree of maps, slices and scalars that a YAML
    decoder produces, the references it holds, and what a reference denotes. */
module OpenApiTree {
  import opened Strings
  import opened Wrappers

  datatype Node =
    | Obj(fields: map<string, Node>)
    | Arr(items: seq<Node>)
    | Str(text: string)
    | Scalar(value: int)  // numbers, booleans and null

  type Fields = map<string, Node>

  const REF := "$ref"
  const COMPONENTS := "components"
  const PATHS := "paths"
  const OPERATION_ID := "operationId"

  /** Every `$ref` text in the tree under a node. */
  function RefsIn(n: Node): set<string>
    decreases n, 0
  {
    match n
    case Obj(m) => set k, r | k in m && r in RefsAt(k, m[k]) :: r
    case Arr(s) => set i, r | 0 <= i < |s| && r in RefsIn(s[i]) :: r
    case _ => {}
  }

  function RefsAt(key: string, v: Node): set<string>
    decreases v, 1
  {
    if key == REF && v.Str? then {v.text} else RefsIn(v)
  }

  /** Some `$ref` key holds something else than a string. */
  predicate HasBadRef(n: Node)
    decreases n, 0
  {
    match n
    case Obj(m) => exists k | k in m :: BadRefAt(k, m[k])
    case Arr(s) => exists i | 0 <= i < |s| :: HasBadRef(s[i])
    case _ => false
  }

  predicate BadRefAt(key: string, v: Node)
    decreases v, 1
  {
    if key == REF then !v.Str? else HasBadRef(v)
  }

  /** A reference as the collector reads it: the first three segments after `#/`. */
  datatype RefPath = RefPath(section: string, subsection: string, name: string)

  function ParseRef(ref: string): (r: Option<RefPath>)
  {
    if !HasPrefix(ref, "#/") then None
    else
      var parts := Split(ref, '/');
      if |parts| < 4 then None else Some(RefPath(parts[1], parts[2], parts[3]))
  }

  ghost predicate Spells(ref: string, path: RefPath) {
    && AllFree([path.section, path.subsection, path.name], '/')
    && exists rest: seq<string> ::
      AllFree(rest, '/') && ref == Join(["#", path.section, path.subsection, path.name] + rest, '/')
  }

  lemma ParsedSpells(ref: string, path: RefPath)
    requires ParseRef(ref) == Some(path)
    ensures Spells(ref, path)
  {
    var parts := Split(ref, '/');
    var front := ["#", path.section, path.subsection, path.name];
    JoinSplit(ref, '/');
    assert ref == "#/" + ref[2..] == "#" + ['/'] + ref[2..];
    SplitCons("#", ref[2..], '/');
    assert parts == ["#"] + Split(ref[2..], '/');
    assert parts[0] == "#";
    assert parts == front + parts[4..];
    assert AllFree(parts[4..], '/');
    assert [path.section, path.subsection, path.name] == parts[1..4];
  }

  lemma SpelledParses(ref: string, path: RefPath, rest: seq<string>)
    requires AllFree([path.section, path.subsection, path.name], '/') && AllFree(rest, '/')
    requires ref == Join(["#", path.section, path.subsection, path.name] + rest, '/')
    ensures ParseRef(ref) == Some(path)
  {
    var whole := ["#", path.section, path.subsection, path.name] + rest;
    forall i | 0 <= i < |whole|
      ensures '/' !in whole[i]
    {
      if 1 <= i < 4 {
        assert whole[i] == [path.section, path.subsection, path.name][i - 1];
      } else if i >= 4 {
        assert whole[i] == rest[i - 4];
      }
    }
    SplitJoin(whole, '/');
    assert ref == "#" + ['/'] + Join(whole[1..], '/');
  }

  /** A reference parses exactly when it is `#/a/b/c`, possibly followed by more
      segments, and then a, b and c are the slash-free texts between the slashes. */
  lemma ParseRefMeaning(ref: string, path: RefPath)
    ensures ParseRef(ref) == Some(path) <==> Spells(ref, path)
  {
    if ParseRef(ref) == Some(path) {
      ParsedSpells(ref, path);
    }
    if Spells(ref, path) {
      var rest: seq<string> :|
        AllFree(rest, '/') && ref == Join(["#", path.section, path.subsection, path.name] + rest, '/');
      SpelledParses(ref, path, rest);
    }
  }

  /** The sub-object under a key, when there is one. */
  function Child(m: Fields, key: string): Option<Fields> {
    if key in m && m[key].Obj? then Some(m[key].fields) else None
  }

  datatype Outcome<+T> = Ok(value: T) | Err(error: CollectError) | Panic

  datatype CollectError =
    | InvalidRef(ref: string)
    | NoSection(ref: string)
    | NoSubsection(ref: string)
    | NoObject(ref: string)
    | NoPaths
    | OperationNotFound(id: string)

  function FindByRefObject(doc: Fields, ref: string): (r: Outcome<Fields>)
  {
    match ParseRef(ref)
    case None => Err(InvalidRef(ref))
    case Some(p) =>
      match Child(doc, p.section)
      case None => Err(NoSection(ref))
      case Some(section) =>
        match Child(section, p.subsection)
        case None => Err(NoSubsection(ref))
        case Some(subsection) =>
          match Child(subsection, p.name)
          case None => Err(NoObject(ref))
          case Some(found) => Ok(found)
  }

  /** Three steps down the document, through maps only. */
  predicate Holds(doc: Fields, path: RefPath, found: Fields) {
    && path.section in doc && doc[path.section].Obj?
    && path.subsection in doc[path.section].fields && doc[path.section].fields[path.subsection].Obj?
    && path.name in doc[path.section].fields[path.subsection].fields
    && doc[path.section].fields[path.subsection].fields[path.name] == Obj(found)
  }

  /** The reference spells three segments, and possibly more, that lead to an object. */
  ghost predicate Names(doc: Fields, ref: string, found: Fields) {
    exists path :: Spells(ref, path) && Holds(doc, path, found)
  }

  /** Lookup succeeds exactly on the object the first three segments name, however many
      more there are. */
  lemma FindMeaning(doc: Fields, ref: string, found: Fields)
    ensures FindByRefObject(doc, ref) == Ok(found) <==> Names(doc, ref, found)
  {
    forall path
      ensures ParseRef(ref) == Some(path) <==> Spells(ref, path)
    {
      ParseRefMeaning(ref, path);
    }
    if FindByRefObject(doc, ref) == Ok(found) {
      assert Spells(ref, ParseRef(ref).value) && Holds(doc, ParseRef(ref).value, found);
    }
  }

  /** And otherwise it tells which step is missing. */
  lemma FindErrors(doc: Fields, ref: string)
    ensures FindByRefObject(doc, ref) == Err(InvalidRef(ref)) <==> forall path :: !Spells(ref, path)
    ensures forall path | Spells(ref, path) ::
              var a := Child(doc, path.section);
              && (FindByRefObject(doc, ref) == Err(NoSection(ref)) <==> a.None?)
              && (FindByRefObject(doc, ref) == Err(NoSubsection(ref)) <==>
                    a.Some? && Child(a.value, path.subsection).None?)
              && (FindByRefObject(doc, ref) == Err(NoObject(ref)) <==>
                    && a.Some? && Child(a.value, path.subsection).Some?
                    && Child(Child(a.value, path.subsection).value, path.name).None?)
    ensures !FindByRefObject(doc, ref).Panic?
  {
    forall path
      ensures ParseRef(ref) == Some(path) <==> Spells(ref, path)
    {
      ParseRefMeaning(ref, path);
    }
    if ParseRef(ref).Some? {
      assert Spells(ref, ParseRef(ref).value);
    }
  }

  /** One step of a JSON pointer: a map key, or the numeral of a slice index. */
  ghost function Step(n: Node, key: string): Option<Node> {
    match n
    case Obj(m) => if key in m then Some(m[key]) else None
    case Arr(s) =>
      if exists i: nat :: i < |s| && Decimal(i) == key
      then var i: nat :| i < |s| && Decimal(i) == key; Some(s[i])
      else None
    case _ => None
  }

  ghost function Walk(n: Node, path: seq<string>): Option<Node> {
    if path == [] then Some(n)
    else match Step(n, path[0])
         case None => None
         case Some(c) => Walk(c, path[1..])
  }

  /** What a reference denotes when every one of its segments is followed. */
  ghost function Resolve(doc: Fields, ref: string): Option<Node> {
    if HasPrefix(ref, "#/") then Walk(Obj(doc), Split(ref, '/')[1..]) else None
  }

  // ---------- Where references stand

  /** At the end of the path stands a `$ref` with that value; the path goes through no
      other `$ref`. */
  ghost predicate StandsAt(n: Node, path: seq<string>, v: Node) {
    "$ref" !in path && Walk(n, path).Some? && Walk(n, path).value.Obj?
    && "$ref" in Walk(n, path).value.fields && Walk(n, path).value.fields["$ref"] == v
  }

  ghost predicate Stands(n: Node, v: Node) {
    exists path :: StandsAt(n, path, v)
  }

  lemma StandsHere(m: Fields)
    requires REF in m
    ensures Stands(Obj(m), m[REF])
  {
    assert StandsAt(Obj(m), [], m[REF]);
  }

  lemma StandsBelow(n: Node, key: string, v: Node)
    requires key != REF && Step(n, key).Some? && Stands(Step(n, key).value, v)
    ensures Stands(n, v)
  {
    var path :| StandsAt(Step(n, key).value, path, v);
    assert ([key] + path)[1..] == path;
    assert StandsAt(n, [key] + path, v);
  }

  lemma {:induction false} DecimalIsNoRef(i: nat)
    ensures Decimal(i)[0] != REF[0]
  {
    if i >= 10 {
      DecimalIsNoRef(i / 10);
    }
  }

  lemma StepIndex(s: seq<Node>, i: nat)
    requires i < |s|
    ensures Step(Arr(s), Decimal(i)) == Some(s[i]) && Decimal(i) != REF
  {
    DecimalIsNoRef(i);
    forall j: nat | j < |s| && Decimal(j) == Decimal(i)
      ensures j == i
    {
      DecimalInjective(j, i);
    }
  }

  /** A collected reference stands in the tree, and a bad one stands in a bad tree. */
  lemma {:induction false} CollectedStands(n: Node, t: string)
    ensures t in RefsIn(n) && !HasBadRef(n) ==> Stands(n, Str(t))
    ensures HasBadRef(n) ==> exists v :: Stands(n, v) && !v.Str?
    decreases n
  {
    match n
    case Obj(m) =>
      if HasBadRef(n) {
        var k :| k in m && BadRefAt(k, m[k]);
        if k == REF {
          StandsHere(m);
        } else {
          CollectedStands(m[k], t);
          var v :| Stands(m[k], v) && !v.Str?;
          StandsBelow(n, k, v);
        }
      } else if t in RefsIn(n) {
        var k :| k in m && t in RefsAt(k, m[k]);
        assert !BadRefAt(k, m[k]);
        if k == REF {
          StandsHere(m);
        } else {
          CollectedStands(m[k], t);
          StandsBelow(n, k, Str(t));
        }
      }
    case Arr(s) =>
      if HasBadRef(n) {
        var i: nat :| i < |s| && HasBadRef(s[i]);
        CollectedStands(s[i], t);
        StepIndex(s, i);
        var v :| Stands(s[i], v) && !v.Str?;
        StandsBelow(n, Decimal(i), v);
      } else if t in RefsIn(n) {
        var i: nat :| i < |s| && t in RefsIn(s[i]);
        CollectedStands(s[i], t);
        StepIndex(s, i);
        StandsBelow(n, Decimal(i), Str(t));
      }
    case _ =>
  }

  /** What stands in the tree is collected, or bad. */
  lemma {:induction false} StandingCollected(n: Node, path: seq<string>, v: Node)
    requires StandsAt(n, path, v)
    ensures if v.Str? then v.text in RefsIn(n) else HasBadRef(n)
    decreases |path|
  {
    if path == [] {
      assert v == n.fields[REF];
      assert if v.Str? then v.text in RefsAt(REF, v) else BadRefAt(REF, v);
    } else {
      var c := Step(n, path[0]).value;
      StandingCollected(c, path[1..], v);
      assert path[0] in path;
      if n.Obj? {
        assert if v.Str? then v.text in RefsAt(path[0], c) else BadRefAt(path[0], c);
      }
    }
  }

  /** A tree is bad exactly when a `$ref` that is no text stands in it, and otherwise its
      references are exactly the texts of the `$ref`s that stand in it. */
  lemma RefsMeaning(n: Node, t: string)
    ensures HasBadRef(n) <==> exists v :: Stands(n, v) && !v.Str?
    ensures !HasBadRef(n) ==> (t in RefsIn(n) <==> Stands(n, Str(t)))
  {
    CollectedStands(n, t);
    if v :| Stands(n, v) && !v.Str? {
      var path :| StandsAt(n, path, v);
      StandingCollected(n, path, v);
    }
    if Stands(n, Str(t)) {
      var path :| StandsAt(n, path, Str(t));
      StandingCollected(n, path, Str(t));
    }
  }

  lemma RefsOfField(m: Fields, key: string)
    requires key in m
    ensures RefsIn(m[key]) <= RefsIn(Obj(m))
  {
    forall r | r in RefsIn(m[key])
      ensures r in RefsIn(Obj(m))
    {
      assert r in RefsAt(key, m[key]);
    }
  }

  lemma {:induction false} RefsOfWalk(n: Node, path: seq<string>)
    requires Walk(n, path).Some?
    ensures RefsIn(Walk(n, path).value) <= RefsIn(n)
    decreases |path|
  {
    if path != [] {
      var c := Step(n, path[0]).value;
      if n.Obj? {
        RefsOfField(n.fields, path[0]);
      }
      RefsOfWalk(c, path[1..]);
    }
  }

  lemma RefsOfTarget(doc: Fields, ref: string)
    requires FindByRefObject(doc, ref).Ok?
    ensures RefsIn(Obj(FindByRefObject(doc, ref).value)) <= RefsIn(Obj(doc))
  {
    var p := ParseRef(ref).value;
    var section := doc[p.section].fields;
    var subsection := section[p.subsection].fields;
    RefsOfField(doc, p.section);
    RefsOfField(section, p.subsection);
    RefsOfField(subsection, p.name);
  }

  /** Full resolution starts at the object the collector finds. */
  lemma ResolveThroughObject(doc: Fields, ref: string)
    requires FindByRefObject(doc, ref).Ok?
    ensures |Split(ref, '/')| >= 4
    ensures Resolve(doc, ref) == Walk(Obj(FindByRefObject(doc, ref).value), Split(ref, '/')[4..])
  {
    var parts := Split(ref, '/');
    var p := ParseRef(ref).value;
    var a := doc[p.section];
    var b := a.fields[p.subsection];
    assert parts[1..][1..] == parts[2..];
    assert parts[2..][1..] == parts[3..];
    assert parts[3..][1..] == parts[4..];
    assert Walk(Obj(doc), parts[1..]) == Walk(a, parts[2..]);
    assert Walk(a, parts[2..]) == Walk(b, parts[3..]);
  }

  /** Full resolution never leaves the object, so it adds no reference. */
  lemma RefsOfResolve(doc: Fields, ref: string)
    requires FindByRefObject(doc, ref).Ok? && Resolve(doc, ref).Some?
    ensures RefsIn(Resolve(doc, ref).value) <= RefsIn(Obj(FindByRefObject(doc, ref).value))
  {
    ResolveThroughObject(doc, ref);
    RefsOfWalk(Obj(FindByRefObject(doc, ref).value), Split(ref, '/')[4..]);
  }
}
