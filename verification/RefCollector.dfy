/** The collector of ref_collector.go: which components the asked operations need. */
module RefCollector {
  import opened OpenApiTree
  import opened Reachability
  import opened Wrappers

  /** sets.Set[string], which the collector passes by reference. */
  class StringSet {
    var elems: set<string>

    constructor ()
      ensures elems == {}
    {
      elems := {};
    }

    method Insert(x: string)
      modifies this
      ensures elems == old(elems) + {x}
    {
      elems := elems + {x};
    }

    /** Removes an element of the set's own choosing. */
    method PopAny() returns (x: string)
      requires elems != {}
      modifies this
      ensures x in old(elems) && elems == old(elems) - {x}
    {
      x :| x in elems;
      elems := elems - {x};
    }
  }

  // ---------- What the collector looks for

  predicate HasId(operation: Fields, id: string) {
    OPERATION_ID in operation && operation[OPERATION_ID] == Str(id)
  }

  /** The operationId of the decoded operation object; empty when absent. */
  function OperationIdOf(operation: Fields): string {
    if OPERATION_ID in operation && operation[OPERATION_ID].Str? then operation[OPERATION_ID].text else ""
  }

  /** The map found under a path and a key of its path item. */
  function Entry(doc: Fields, path: string, key: string): Option<Fields> {
    match Child(doc, PATHS)
    case None => None
    case Some(paths) =>
      match Child(paths, path)
      case None => None
      case Some(item) => Child(item, key)
  }

  /** An entry is what the document holds under "paths", the path and the key. */
  lemma EntryMeaning(doc: Fields, path: string, key: string, operation: Fields)
    ensures Entry(doc, path, key) == Some(operation) <==> Holds(doc, RefPath("paths", path, key), operation)
    ensures forall id :: HasId(operation, id) <==> "operationId" in operation && operation["operationId"] == Str(id)
    ensures OperationIdOf(operation) != "" ==> HasId(operation, OperationIdOf(operation))
    ensures forall id | HasId(operation, id) :: OperationIdOf(operation) == id
  {
  }

  ghost predicate HasOperation(doc: Fields, id: string) {
    exists path, key :: Entry(doc, path, key).Some? && HasId(Entry(doc, path, key).value, id)
  }

  /** OpenAPI 3.0.3, section 4.7.10: an operationId is unique among all operations. */
  ghost predicate UniqueIds(doc: Fields, operations: set<string>) {
    forall path, key, path', key' ::
      Entry(doc, path, key).Some? && Entry(doc, path', key').Some?
      && OperationIdOf(Entry(doc, path, key).value) in operations
      && OperationIdOf(Entry(doc, path, key).value) == OperationIdOf(Entry(doc, path', key').value)
      ==> path == path' && key == key'
  }

  /** The entry under a path and key is an operation whose id was asked for. */
  ghost predicate Asked(doc: Fields, operations: set<string>, path: string, key: string, id: string) {
    id in operations && Entry(doc, path, key).Some? && HasId(Entry(doc, path, key).value, id)
  }

  /** The references held by the asked operations. */
  ghost function RootRefs(doc: Fields, operations: set<string>): set<string> {
    set r | r in RefsIn(Obj(doc)) && IsRootRef(doc, operations, r)
  }

  ghost predicate IsRootRef(doc: Fields, operations: set<string>, r: string) {
    exists path, key, id ::
      Asked(doc, operations, path, key, id) && r in RefsIn(Obj(Entry(doc, path, key).value))
  }

  lemma RootRefMember(doc: Fields, operations: set<string>, r: string)
    ensures r in RootRefs(doc, operations) <==> IsRootRef(doc, operations, r)
  {
    if IsRootRef(doc, operations, r) {
      var path, key, id :| Asked(doc, operations, path, key, id) && r in RefsIn(Obj(Entry(doc, path, key).value));
      RefsOfEntry(doc, path, key);
    }
  }

  lemma RefsOfEntry(doc: Fields, path: string, key: string)
    requires Entry(doc, path, key).Some?
    ensures RefsIn(Obj(Entry(doc, path, key).value)) <= RefsIn(Obj(doc))
  {
    var paths := doc[PATHS].fields;
    var item := paths[path].fields;
    RefsOfField(doc, PATHS);
    RefsOfField(paths, path);
    RefsOfField(item, key);
  }

  /** One reference stands in the object that the other names. */
  ghost predicate LeadsTo(doc: Fields, ref: string, next: string) {
    exists found :: Names(doc, ref, found) && next in RefsIn(Obj(found))
  }

  /** The references inside the object a reference names. */
  ghost function Successors(doc: Fields, ref: string): set<string> {
    set q | q in RefsIn(Obj(doc)) && LeadsTo(doc, ref, q)
  }

  ghost predicate NamesBad(doc: Fields, ref: string) {
    exists found :: Names(doc, ref, found) && HasBadRef(Obj(found))
  }

  ghost predicate Unnamed(doc: Fields, ref: string) {
    forall found :: !Names(doc, ref, found)
  }

  /** All of these in terms of the lookup. */
  lemma FoundSuccessors(doc: Fields, ref: string)
    ensures !FindByRefObject(doc, ref).Panic? && (FindByRefObject(doc, ref).Err? <==> Unnamed(doc, ref))
    ensures var r := FindByRefObject(doc, ref);
            NamesBad(doc, ref) <==> r.Ok? && HasBadRef(Obj(r.value))
    ensures var r := FindByRefObject(doc, ref);
            Successors(doc, ref) == if r.Ok? then RefsIn(Obj(r.value)) else {}
    ensures var r := FindByRefObject(doc, ref);
            Sound(doc, ref) <==> r.Ok? && !HasBadRef(Obj(r.value))
  {
    forall found
      ensures FindByRefObject(doc, ref) == Ok(found) <==> Names(doc, ref, found)
    {
      FindMeaning(doc, ref, found);
    }
    if FindByRefObject(doc, ref).Ok? {
      RefsOfTarget(doc, ref);
      assert Names(doc, ref, FindByRefObject(doc, ref).value);
    }
  }

  ghost function SuccessorsOf(doc: Fields): string -> set<string> {
    ref => Successors(doc, ref)
  }

  ghost predicate Needed(doc: Fields, roots: set<string>, ref: string) {
    Reachable(SuccessorsOf(doc), roots, ref)
  }

  /** The object exists and every `$ref` in it is a string. */
  ghost predicate Sound(doc: Fields, ref: string) {
    exists found :: Names(doc, ref, found) && !HasBadRef(Obj(found))
  }

  /** When collection succeeds. */
  ghost predicate Collectable(doc: Fields, operations: set<string>) {
    && (forall id | id in operations :: HasOperation(doc, id))
    && (forall path, key, id | Asked(doc, operations, path, key, id) :: !HasBadRef(Obj(Entry(doc, path, key).value)))
    && (forall ref | Needed(doc, RootRefs(doc, operations), ref) :: Sound(doc, ref))
  }

  // ---------- Which entry is taken for an id

  /** The operations met so far, by the id they were looked up with. With unique ids there
      is no choice; otherwise it depends on the iteration order. */
  type Choice = map<string, Fields>

  ghost predicate IsEntryWithId(doc: Fields, operation: Fields, id: string) {
    exists path, key :: Entry(doc, path, key) == Some(operation) && HasId(operation, id)
  }

  ghost predicate IsChoice(doc: Fields, choice: Choice) {
    forall id | id in choice :: IsEntryWithId(doc, choice[id], id)
  }

  predicate Extends(more: Choice, less: Choice) {
    forall id | id in less :: id in more && more[id] == less[id]
  }

  ghost function ChosenRefs(choice: Choice): set<string> {
    set id, r | id in choice && r in RefsIn(Obj(choice[id])) :: r
  }

  /** Nothing that the chosen operations need is missing or malformed. */
  ghost predicate CollectableBy(doc: Fields, choice: Choice) {
    && (forall id | id in choice :: !HasBadRef(Obj(choice[id])))
    && (forall ref | Needed(doc, ChosenRefs(choice), ref) :: Sound(doc, ref))
  }

  lemma ChosenRefsInsert(choice: Choice, id: string, operation: Fields)
    requires id !in choice
    ensures ChosenRefs(choice[id := operation]) == ChosenRefs(choice) + RefsIn(Obj(operation))
  {
    var more := choice[id := operation];
    forall r
      ensures r in ChosenRefs(more) <==> r in ChosenRefs(choice) + RefsIn(Obj(operation))
    {
      if r in RefsIn(Obj(operation)) {
        assert more[id] == operation;
      }
      if r in ChosenRefs(choice) {
        var i :| i in choice && r in RefsIn(Obj(choice[i]));
        assert more[i] == choice[i];
      }
    }
  }

  /** With unique ids the chosen operations are the asked ones. */
  lemma UniqueChoice(doc: Fields, operations: set<string>, choice: Choice)
    requires UniqueIds(doc, operations) && IsChoice(doc, choice) && choice.Keys == operations
    ensures ChosenRefs(choice) == RootRefs(doc, operations)
    ensures CollectableBy(doc, choice) <==> Collectable(doc, operations)
  {
    forall path, key, id | Asked(doc, operations, path, key, id)
      ensures Entry(doc, path, key) == Some(choice[id])
    {
      assert IsEntryWithId(doc, choice[id], id);
    }
    forall id | id in operations
      ensures HasOperation(doc, id)
      ensures exists path, key :: Asked(doc, operations, path, key, id)
    {
      var path, key :| Entry(doc, path, key) == Some(choice[id]) && HasId(choice[id], id);
      assert Asked(doc, operations, path, key, id);
    }
    forall r
      ensures r in ChosenRefs(choice) <==> r in RootRefs(doc, operations)
    {
      RootRefMember(doc, operations, r);
      if r in ChosenRefs(choice) {
        var id :| id in choice && r in RefsIn(Obj(choice[id]));
        var path, key :| Asked(doc, operations, path, key, id);
      }
    }
  }

  /** No way of completing a choice makes collection succeed. */
  ghost predicate Hopeless(doc: Fields, operations: set<string>, choice: Choice) {
    forall c: Choice | IsChoice(doc, c) && c.Keys == operations && Extends(c, choice) :: !CollectableBy(doc, c)
  }

  lemma NoChoiceWithout(doc: Fields, operations: set<string>, choice: Choice, id: string)
    requires id in operations && !HasOperation(doc, id)
    ensures Hopeless(doc, operations, choice)
  {
    assert forall c: Choice | c.Keys == operations :: !IsEntryWithId(doc, c[id], id);
  }

  lemma BadChoice(doc: Fields, operations: set<string>, choice: Choice, id: string)
    requires id in choice && HasBadRef(Obj(choice[id]))
    ensures Hopeless(doc, operations, choice)
  {
  }

  lemma OnlyChoice(doc: Fields, operations: set<string>, choice: Choice)
    requires choice.Keys == operations && !CollectableBy(doc, choice)
    ensures Hopeless(doc, operations, choice)
  {
    assert forall c: Choice | c.Keys == operations && Extends(c, choice) :: c == choice;
  }

  /** What an error says about a reference: the step that is missing. */
  ghost predicate Explains(doc: Fields, ref: string, e: CollectError) {
    Unnamed(doc, ref) && FindByRefObject(doc, ref) == Err(e)
  }

  /** Panics come only from a `$ref` that is no text, in what was taken or in what it needs. */
  ghost predicate MeetsBadRef(doc: Fields, choice: Choice) {
    || (exists id :: id in choice && HasBadRef(Obj(choice[id])))
    || (exists ref :: Needed(doc, ChosenRefs(choice), ref) && NamesBad(doc, ref))
  }

  /** Errors come only from an unknown id or from a needed reference that names nothing. */
  ghost predicate MeetsMissing(doc: Fields, operations: set<string>, choice: Choice, e: CollectError) {
    || (exists id :: id in operations && !HasOperation(doc, id)
                     && e == if Child(doc, PATHS).None? then NoPaths else OperationNotFound(id))
    || (exists ref :: Needed(doc, ChosenRefs(choice), ref) && Explains(doc, ref, e))
  }

  /** As long as every id is found, a choice can be completed. */
  lemma Completed(doc: Fields, operations: set<string>, choice: Choice) returns (complete: Choice)
    requires IsChoice(doc, choice) && choice.Keys <= operations
    requires forall id | id in operations :: HasOperation(doc, id)
    ensures IsChoice(doc, complete) && complete.Keys == operations && Extends(complete, choice)
  {
    complete := map id | id in operations :: if id in choice then choice[id] else SomeEntry(doc, id);
  }

  ghost function SomeEntry(doc: Fields, id: string): (operation: Fields)
    requires HasOperation(doc, id)
    ensures IsEntryWithId(doc, operation, id)
  {
    var path, key :| Entry(doc, path, key).Some? && HasId(Entry(doc, path, key).value, id);
    Entry(doc, path, key).value
  }

  type Preserve = map<string, map<string, set<string>>>

  predicate Keeps(preserve: Preserve, section: string, subsection: string, name: string) {
    section in preserve && subsection in preserve[section] && name in preserve[section][subsection]
  }

  // ---------- The tree walk

  method EntryRefs(e: Node, refs: StringSet) returns (panicked: bool)
    modifies refs
    ensures panicked == HasBadRef(e)
    ensures !panicked ==> refs.elems == old(refs.elems) + RefsIn(e)
    decreases e, 1
  {
    match e
    case Obj(m) => panicked := MapEntry(m, refs);
    case Arr(s) => panicked := SliceEntry(s, refs);
    case _ => panicked := false;
  }

  method SliceEntry(s: seq<Node>, refs: StringSet) returns (panicked: bool)
    modifies refs
    ensures panicked == HasBadRef(Arr(s))
    ensures !panicked ==> refs.elems == old(refs.elems) + RefsIn(Arr(s))
    decreases Arr(s), 0
  {
    var i := 0;
    while i < |s|
      invariant 0 <= i <= |s|
      invariant forall j | 0 <= j < i :: !HasBadRef(s[j])
      invariant refs.elems == old(refs.elems) + RefsIn(Arr(s[..i]))
    {
      panicked := EntryRefs(s[i], refs);
      if panicked {
        return;
      }
      RefsOfSnoc(s, i);
      i := i + 1;
    }
    assert s[..i] == s;
    panicked := false;
  }

  method MapEntry(m: Fields, refs: StringSet) returns (panicked: bool)
    modifies refs
    ensures panicked == HasBadRef(Obj(m))
    ensures !panicked ==> refs.elems == old(refs.elems) + RefsIn(Obj(m))
    decreases Obj(m), 0
  {
    var todo := m.Keys;
    ghost var done := {};
    assert RefsOfKeys(m, {}) == {};
    while todo != {}
      invariant done + todo == m.Keys && done !! todo
      invariant forall k | k in done :: !BadRefAt(k, m[k])
      invariant refs.elems == old(refs.elems) + RefsOfKeys(m, done)
    {
      var k :| k in todo;
      todo := todo - {k};
      RefsOfInsert(m, done, k);
      done := done + {k};
      var v := m[k];
      if k == REF {
        if !v.Str? {
          assert BadRefAt(k, v);
          return true;
        }
        refs.Insert(v.text);
        continue;
      }
      panicked := EntryRefs(v, refs);
      if panicked {
        assert BadRefAt(k, v);
        return;
      }
    }
    assert RefsOfKeys(m, m.Keys) == RefsIn(Obj(m));
    panicked := false;
  }

  ghost function RefsOfKeys(m: Fields, keys: set<string>): set<string> {
    set k, r | k in m && k in keys && r in RefsAt(k, m[k]) :: r
  }

  lemma RefsOfInsert(m: Fields, keys: set<string>, key: string)
    requires key in m
    ensures RefsOfKeys(m, keys + {key}) == RefsOfKeys(m, keys) + RefsAt(key, m[key])
  {
  }

  lemma RefsOfSnoc(s: seq<Node>, i: nat)
    requires i < |s|
    ensures RefsIn(Arr(s[..i + 1])) == RefsIn(Arr(s[..i])) + RefsIn(s[i])
  {
    forall r | r in RefsIn(Arr(s[..i])) + RefsIn(s[i])
      ensures r in RefsIn(Arr(s[..i + 1]))
    {
      if r in RefsIn(s[i]) {
        assert s[..i + 1][i] == s[i];
      } else {
        var j :| 0 <= j < i && r in RefsIn(s[..i][j]);
        assert s[..i + 1][j] == s[..i][j];
      }
    }
  }

  // ---------- Lookup and collection

  class Collector {
    const doc: Fields
    const refs: StringSet

    constructor (doc: Fields)
      ensures this.doc == doc && fresh(refs) && refs.elems == {}
    {
      this.doc := doc;
      refs := new StringSet();
    }

    /** Visits path items and their entries in any order and stops at the first match. */
    method FindByOperationId(id: string) returns (r: Outcome<Fields>)
      ensures r.Ok? <==> HasOperation(doc, id)
      ensures r.Ok? ==> exists path, key :: Entry(doc, path, key) == Some(r.value) && HasId(r.value, id)
      ensures !r.Panic?
      ensures r.Err? ==> r.error == if Child(doc, PATHS).None? then NoPaths else OperationNotFound(id)
    {
      if Child(doc, PATHS).None? {
        return Err(NoPaths);
      }
      var paths := Child(doc, PATHS).value;
      var todo := paths.Keys;
      while todo != {}
        invariant todo <= paths.Keys
        invariant forall path, key | path !in todo && Entry(doc, path, key).Some? ::
            !HasId(Entry(doc, path, key).value, id)
      {
        var path :| path in todo;
        todo := todo - {path};
        if !paths[path].Obj? {
          continue;
        }
        var item := paths[path].fields;
        var keys := item.Keys;
        while keys != {}
          invariant keys <= item.Keys
          invariant forall key | key !in keys && Entry(doc, path, key).Some? ::
              !HasId(Entry(doc, path, key).value, id)
        {
          var key :| key in keys;
          keys := keys - {key};
          if !item[key].Obj? {
            continue;
          }
          var operation := item[key].fields;
          if HasId(operation, id) {
            assert Entry(doc, path, key) == Some(operation);
            return Ok(operation);
          }
        }
      }
      return Err(OperationNotFound(id));
    }

    /** Moves what has not been visited yet from a set of references to the queue. */
    method QueueUnvisited(current: StringSet, visited: StringSet)
      requires current != refs && current != visited && visited != refs
      modifies refs, current
      ensures refs.elems == old(refs.elems) + (old(current.elems) - visited.elems)
    {
      while |current.elems| > 0
        invariant current.elems <= old(current.elems)
        invariant refs.elems == old(refs.elems) + (old(current.elems) - current.elems - visited.elems)
      {
        var q := current.PopAny();
        if q !in visited.elems {
          refs.Insert(q);
        }
      }
    }

    /** Finds the object of a newly visited reference and queues what it refers to. Panics
        exactly at a bad reference inside it, and fails exactly when there is no object. */
    method Follow(operation: string, visited: StringSet) returns (r: Outcome<()>)
      requires visited != refs
      modifies refs
      ensures r.Ok? <==> Sound(doc, operation)
      ensures r.Panic? <==> NamesBad(doc, operation)
      ensures r.Err? ==> Explains(doc, operation, r.error)
      ensures r.Ok? ==> refs.elems == old(refs.elems) + (Successors(doc, operation) - visited.elems)
    {
      FoundSuccessors(doc, operation);
      var current := new StringSet();
      var found := FindByRefObject(doc, operation);
      if !found.Ok? {
        return if found.Err? then Err(found.error) else Panic;
      }
      var panicked := MapEntry(found.value, current);
      if panicked {
        return Panic;
      }
      QueueUnvisited(current, visited);
      return Ok(());
    }

    /** The worklist: pops in any order, and ends with exactly what the queue could reach. */
    method CollectDependentRefs() returns (r: Outcome<set<string>>)
      modifies refs
      ensures r.Ok? <==> forall ref | Needed(doc, old(refs.elems), ref) :: Sound(doc, ref)
      ensures r.Panic? ==> exists ref :: Needed(doc, old(refs.elems), ref) && NamesBad(doc, ref)
      ensures r.Err? ==> exists ref :: Needed(doc, old(refs.elems), ref) && Explains(doc, ref, r.error)
      ensures r.Ok? ==> forall ref :: ref in r.value <==> Needed(doc, old(refs.elems), ref)
      ensures r.Ok? ==> forall ref | ref in r.value :: ParseRef(ref).Some?
    {
      ghost var roots := refs.elems;
      ghost var universe := roots + RefsIn(Obj(doc));
      var visited := new StringSet();
      QueueStart(doc, roots);
      while |refs.elems| > 0
        invariant fresh(visited)
        invariant Searching(doc, roots, visited.elems, refs.elems)
        decreases universe - visited.elems, |refs.elems|
      {
        ghost var queued := refs.elems;
        var operation := refs.PopAny();
        if operation !in visited.elems {
          ghost var seen := visited.elems;
          visited.Insert(operation);
          var followed := Follow(operation, visited);
          if !followed.Ok? {
            FoundSuccessors(doc, operation);
            assert Needed(doc, roots, operation) && !Sound(doc, operation);
            assert followed.Err? ==> Explains(doc, operation, followed.error);
            return if followed.Err? then Err(followed.error) else Panic;
          }
          QueueStep(doc, roots, seen, queued, operation, refs.elems);
        }
      }
      FiniteClosure(SuccessorsOf(doc), roots, visited.elems);
      forall ref | ref in visited.elems
        ensures ParseRef(ref).Some?
      {
        FoundSuccessors(doc, ref);
      }
      return Ok(visited.elems);
    }

    /** Takes some entry for every asked id, and succeeds exactly when nothing the taken
        ones need is missing or malformed; then returns exactly the needed objects. On
        failure no way of completing the choice made so far would succeed. */
    method Collect(operations: set<string>) returns (r: Outcome<Preserve>, ghost choice: Choice)
      requires refs.elems == {}
      modifies refs
      ensures IsChoice(doc, choice) && choice.Keys <= operations
      ensures r.Ok? ==> choice.Keys == operations && CollectableBy(doc, choice)
                        && PreservesNeeded(doc, ChosenRefs(choice), r.value)
      ensures !r.Ok? ==> Hopeless(doc, operations, choice)
      ensures r.Panic? ==> MeetsBadRef(doc, choice)
      ensures r.Err? ==> MeetsMissing(doc, operations, choice, r.error)
    {
      choice := map[];
      var todo := operations;
      while todo != {}
        invariant choice.Keys + todo == operations && choice.Keys !! todo
        invariant IsChoice(doc, choice)
        invariant forall id | id in choice :: !HasBadRef(Obj(choice[id]))
        invariant refs.elems == ChosenRefs(choice)
      {
        var id :| id in todo;
        todo := todo - {id};
        var operation := FindByOperationId(id);
        if !operation.Ok? {
          NoChoiceWithout(doc, operations, choice, id);
          return if operation.Err? then Err(operation.error) else Panic, choice;
        }
        var panicked := MapEntry(operation.value, refs);
        ChosenRefsInsert(choice, id, operation.value);
        choice := choice[id := operation.value];
        if panicked {
          BadChoice(doc, operations, choice, id);
          return Panic, choice;
        }
      }
      var visited := CollectDependentRefs();
      if !visited.Ok? {
        OnlyChoice(doc, operations, choice);
        return if visited.Err? then Err(visited.error) else Panic, choice;
      }
      var preserve := Group(visited.value);
      return Ok(preserve), choice;
    }
  }

  /** The loop of collect that files every reference under its three segments. The
      parse error branch is dead there: only references that parsed are visited. */
  method Group(visited: set<string>) returns (preserve: Preserve)
    requires forall ref | ref in visited :: ParseRef(ref).Some?
    ensures forall section, subsection, name ::
              Keeps(preserve, section, subsection, name)
              <==> exists ref :: ref in visited && ParseRef(ref) == Some(RefPath(section, subsection, name))
  {
    preserve := map[];
    var todo := visited;
    ghost var done := {};
    while todo != {}
      invariant done + todo == visited
      invariant forall section, subsection, name ::
          Keeps(preserve, section, subsection, name)
          <==> exists ref :: ref in done && ParseRef(ref) == Some(RefPath(section, subsection, name))
    {
      var ref :| ref in todo;
      todo := todo - {ref};
      var p := ParseRef(ref).value;
      ghost var before := preserve;
      if p.section !in preserve {
        preserve := preserve[p.section := map[]];
      }
      if p.subsection !in preserve[p.section] {
        preserve := preserve[p.section := preserve[p.section][p.subsection := {}]];
      }
      preserve := preserve[p.section :=
        preserve[p.section][p.subsection := preserve[p.section][p.subsection] + {p.name}]];
      forall section, subsection, name
        ensures Keeps(preserve, section, subsection, name)
                <==> Keeps(before, section, subsection, name) || p == RefPath(section, subsection, name)
      {
      }
      done := done + {ref};
    }
    assert done == visited;
  }

  ghost predicate PreservesNeeded(doc: Fields, roots: set<string>, preserve: Preserve) {
    forall section, subsection, name ::
      Keeps(preserve, section, subsection, name) <==> NeedsObject(doc, roots, section, subsection, name)
  }

  ghost predicate NeedsObject(doc: Fields, roots: set<string>, section: string, subsection: string, name: string) {
    exists ref :: Needed(doc, roots, ref) && ParseRef(ref) == Some(RefPath(section, subsection, name))
  }

  /** With unique ids the outcome depends on no choice. */
  lemma CollectedUnique(doc: Fields, operations: set<string>, choice: Choice, ok: bool)
    requires UniqueIds(doc, operations) && IsChoice(doc, choice) && choice.Keys <= operations
    requires ok ==> choice.Keys == operations && CollectableBy(doc, choice)
    requires !ok ==> Hopeless(doc, operations, choice)
    ensures ok <==> Collectable(doc, operations)
    ensures ok ==> ChosenRefs(choice) == RootRefs(doc, operations)
  {
    if ok {
      UniqueChoice(doc, operations, choice);
    } else if Collectable(doc, operations) {
      var complete := Completed(doc, operations, choice);
      UniqueChoice(doc, operations, complete);
    }
  }

  // ---------- The worklist invariant

  ghost predicate Searching(doc: Fields, roots: set<string>, visited: set<string>, queue: set<string>) {
    && visited <= roots + RefsIn(Obj(doc))
    && queue <= roots + RefsIn(Obj(doc))
    && roots <= visited + queue
    && (forall ref | ref in visited + queue :: Needed(doc, roots, ref))
    && (forall ref | ref in visited :: Sound(doc, ref) && Successors(doc, ref) <= visited + queue)
  }

  lemma QueueStart(doc: Fields, roots: set<string>)
    ensures Searching(doc, roots, {}, roots)
  {
  }

  lemma SuccessorsNeeded(doc: Fields, roots: set<string>, ref: string)
    requires Needed(doc, roots, ref)
    ensures Successors(doc, ref) <= RefsIn(Obj(doc))
    ensures forall q | q in Successors(doc, ref) :: Needed(doc, roots, q)
  {
    forall q | q in Successors(doc, ref)
      ensures Needed(doc, roots, q)
    {
      assert q in SuccessorsOf(doc)(ref);
      SuccessorReachable(SuccessorsOf(doc), roots, ref, q);
    }
  }

  /** What moving one reference does to the sets alone. */
  lemma Moved(roots: set<string>, all: set<string>, visited: set<string>, queue: set<string>,
              ref: string, next: set<string>, queue': set<string>)
    requires visited <= all && queue <= all && next <= all
    requires roots <= visited + queue && ref in queue
    requires queue - {ref} <= queue' <= queue - {ref} + next
    ensures visited + {ref} <= all && queue' <= all
    ensures roots <= visited + {ref} + queue'
    ensures visited + queue <= visited + {ref} + queue' <= visited + queue + next
  {
  }

  lemma QueueStep(doc: Fields, roots: set<string>, visited: set<string>, queue: set<string>,
                  ref: string, queue': set<string>)
    requires Searching(doc, roots, visited, queue)
    requires ref in queue && Sound(doc, ref)
    requires queue - {ref} <= queue' <= queue - {ref} + Successors(doc, ref)
    requires Successors(doc, ref) <= visited + {ref} + queue'
    ensures Searching(doc, roots, visited + {ref}, queue')
  {
    var next := Successors(doc, ref);
    SuccessorsNeeded(doc, roots, ref);
    Moved(roots, roots + RefsIn(Obj(doc)), visited, queue, ref, next, queue');
    forall r | r in visited + {ref}
      ensures Sound(doc, r) && Successors(doc, r) <= visited + {ref} + queue'
    {
      if r != ref {
        assert Successors(doc, r) <= visited + queue;
      }
    }
  }
}
