/** removeUnusedNodes of openapi_minifier.go: drops, in place, the operations that were
    not asked for, the path items left empty, and the components nobody needs. */
module Minifier {
  import opened OpenApiTree
  import opened RefCollector
  import opened Strings
  import opened Wrappers

  /** The operations a Path Item Object can hold (OpenAPI 3.0.3, section 4.7.9). */
  const METHODS: set<string> := {"get", "put", "post", "delete", "options", "head", "patch", "trace"}

  /** The component kinds that are filtered; securitySchemes are kept whole. */
  const FILTERED: set<string> :=
    {"schemas", "headers", "parameters", "responses", "requestBodies", "examples", "links", "callbacks"}

  /** Specification extensions beside the paths are not path items. */
  predicate IsExtension(path: string) {
    HasPrefix(path, "x-")
  }

  /** The path item as decoded: a null item is empty, a null operation is absent. */
  function DecodeItem(n: Node): Fields {
    if n.Obj? then map k | k in n.fields && (k in METHODS ==> n.fields[k].Obj?) :: n.fields[k] else map[]
  }

  predicate IsPathItemEmpty(item: Fields) {
    forall m | m in METHODS :: m !in item
  }

  // ---------- What the result is

  predicate KeepsKey(item: Fields, key: string, operations: set<string>)
    requires key in item
  {
    key in METHODS ==> item[key].Obj? && OperationIdOf(item[key].fields) in operations
  }

  function MinifyItem(n: Node, operations: set<string>): Fields {
    var item := DecodeItem(n);
    map k | k in item && KeepsKey(item, k, operations) :: item[k]
  }

  function MinifyPaths(paths: Fields, operations: set<string>): Fields {
    map p | p in paths && (IsExtension(p) || !IsPathItemEmpty(MinifyItem(paths[p], operations))) ::
      if IsExtension(p) then paths[p] else Obj(MinifyItem(paths[p], operations))
  }

  ghost function MinifyKind(doc: Fields, roots: set<string>, kind: string, names: Fields): Fields {
    map name | name in names && NeedsObject(doc, roots, COMPONENTS, kind, name) :: names[name]
  }

  ghost function MinifyComponents(doc: Fields, roots: set<string>, components: Fields): Fields {
    map kind | kind in components ::
      if kind in FILTERED && components[kind].Obj?
      then Obj(MinifyKind(doc, roots, kind, components[kind].fields))
      else components[kind]
  }

  /** The document reduced to some operations and to what some references need. */
  ghost function MinifiedFor(doc: Fields, operations: set<string>, roots: set<string>): Fields
    requires Child(doc, PATHS).Some?
  {
    var withPaths := doc[PATHS := Obj(MinifyPaths(Child(doc, PATHS).value, operations))];
    if Child(doc, COMPONENTS).Some?
    then withPaths[COMPONENTS := Obj(MinifyComponents(doc, roots, Child(doc, COMPONENTS).value))]
    else withPaths
  }

  ghost function Minified(doc: Fields, operations: set<string>): Fields
    requires Child(doc, PATHS).Some?
  {
    MinifiedFor(doc, operations, RootRefs(doc, operations))
  }

  // ---------- The document that is changed in place

  class Document {
    const source: Fields
    var paths: Option<Fields>
    var components: Option<Fields>

    constructor (source: Fields)
      ensures this.source == source
      ensures paths == Child(source, PATHS) && components == Child(source, COMPONENTS)
    {
      this.source := source;
      paths := Child(source, PATHS);
      components := Child(source, COMPONENTS);
    }

    function Tree(): Fields
      reads this
    {
      var withPaths := if paths.Some? then source[PATHS := Obj(paths.value)] else source;
      if components.Some? then withPaths[COMPONENTS := Obj(components.value)] else withPaths
    }

    method DropOperations(operations: set<string>)
      requires paths.Some?
      modifies this`paths
      ensures paths == Some(MinifyPaths(old(paths).value, operations))
    {
      ghost var before := paths.value;
      var todo := set p | p in paths.value && !IsExtension(p);
      assert paths.value == PathsAfter(before, operations, todo);
      while todo != {}
        invariant todo <= set p | p in before && !IsExtension(p)
        invariant paths.Some? && paths.value == PathsAfter(before, operations, todo)
      {
        var path :| path in todo;
        ghost var pending := todo;
        todo := todo - {path};
        assert paths.value[path] == before[path];
        var item := DecodeItem(paths.value[path]);
        ghost var decoded := item;
        var methods := METHODS * item.Keys;
        while methods != {}
          invariant methods <= METHODS * decoded.Keys
          invariant item == map k | k in decoded && (k in methods || KeepsKey(decoded, k, operations)) :: decoded[k]
        {
          var m :| m in methods;
          methods := methods - {m};
          if OperationIdOf(item[m].fields) !in operations {
            item := item - {m};
          }
        }
        assert item == MinifyItem(before[path], operations);
        paths := Some(if IsPathItemEmpty(item) then paths.value - {path} else paths.value[path := Obj(item)]);
        PathsAfterStep(before, operations, pending, path, paths.value);
      }
      assert PathsAfter(before, operations, {}) == MinifyPaths(before, operations);
    }

    method DropComponents(preserve: Preserve)
      requires components.Some?
      modifies this`components
      ensures components == Some(ComponentsKept(old(components).value, preserve, FILTERED))
    {
      ghost var before := components.value;
      var todo := FILTERED;
      assert before == ComponentsKept(before, preserve, {});
      while todo != {}
        invariant todo <= FILTERED
        invariant components.Some? && components.value == ComponentsKept(before, preserve, FILTERED - todo)
      {
        var kind :| kind in todo;
        todo := todo - {kind};
        ghost var current := components.value;
        if kind in components.value && components.value[kind].Obj? {
          var names := DropNames(components.value[kind].fields, preserve, kind);
          components := Some(components.value[kind := Obj(names)]);
        }
        ComponentsKeptStep(before, preserve, FILTERED - (todo + {kind}), kind, current);
        assert FILTERED - todo == (FILTERED - (todo + {kind})) + {kind};
      }
      assert FILTERED - todo == FILTERED;
    }
  }

  /** The loop over the names of one component kind. */
  method DropNames(all: Fields, preserve: Preserve, kind: string) returns (names: Fields)
    ensures names == NamesKept(all, preserve, kind)
  {
    names := all;
    var remaining := names.Keys;
    while remaining != {}
      invariant remaining <= all.Keys
      invariant names == map n | n in all && (n in remaining || Keeps(preserve, COMPONENTS, kind, n)) :: all[n]
    {
      var name :| name in remaining;
      remaining := remaining - {name};
      if !Keeps(preserve, COMPONENTS, kind, name) {
        names := names - {name};
      }
    }
  }

  function PathsAfter(before: Fields, operations: set<string>, todo: set<string>): Fields {
    map p | p in before && (p in todo || p in MinifyPaths(before, operations)) ::
      if p in todo then before[p] else MinifyPaths(before, operations)[p]
  }

  lemma PathsAfterStep(before: Fields, operations: set<string>, todo: set<string>, path: string, after: Fields)
    requires path in todo && path in before && !IsExtension(path)
    requires var item := MinifyItem(before[path], operations);
             var current := PathsAfter(before, operations, todo);
             after == if IsPathItemEmpty(item) then current - {path} else current[path := Obj(item)]
    ensures after == PathsAfter(before, operations, todo - {path})
  {
  }

  function NamesKept(names: Fields, preserve: Preserve, kind: string): Fields {
    map n | n in names && Keeps(preserve, COMPONENTS, kind, n) :: names[n]
  }

  function ComponentsKept(components: Fields, preserve: Preserve, kinds: set<string>): Fields {
    map kind | kind in components ::
      if kind in kinds && components[kind].Obj?
      then Obj(NamesKept(components[kind].fields, preserve, kind))
      else components[kind]
  }

  lemma ComponentsKeptStep(before: Fields, preserve: Preserve, kinds: set<string>, kind: string, current: Fields)
    requires current == ComponentsKept(before, preserve, kinds) && kind !in kinds
    ensures ComponentsKept(before, preserve, kinds + {kind})
            == if kind in current && current[kind].Obj?
               then current[kind := Obj(NamesKept(current[kind].fields, preserve, kind))] else current
  {
  }

  /** Fails exactly when the collector fails or the document has no paths; otherwise the
      document ends up as the tree minified for the operations that were taken. */
  method RemoveUnusedNodes(data: Fields, operations: set<string>)
    returns (r: Outcome<Document>, ghost choice: Choice)
    ensures IsChoice(data, choice) && choice.Keys <= operations
    ensures r.Ok? ==> choice.Keys == operations && CollectableBy(data, choice) && Child(data, PATHS).Some?
    ensures r.Ok? ==> fresh(r.value) && r.value.Tree() == MinifiedFor(data, operations, ChosenRefs(choice))
    ensures !r.Ok? && Child(data, PATHS).Some? ==> Hopeless(data, operations, choice)
    ensures r.Panic? ==> MeetsBadRef(data, choice)
    ensures r.Err? ==> MeetsMissing(data, operations, choice, r.error)
                       || (r.error == NoPaths && Child(data, PATHS).None?)
    // with unique ids nothing depends on the choice
    ensures UniqueIds(data, operations) ==>
              && (r.Ok? <==> Collectable(data, operations) && Child(data, PATHS).Some?)
              && (r.Ok? ==> r.value.Tree() == Minified(data, operations))
  {
    var doc := new Document(data);
    var collector := new Collector(data);
    var keep;
    keep, choice := collector.Collect(operations);
    if UniqueIds(data, operations) {
      CollectedUnique(data, operations, choice, keep.Ok?);
    }
    if !keep.Ok? {
      return if keep.Err? then Err(keep.error) else Panic, choice;
    }
    if doc.paths.None? {
      return Err(NoPaths), choice;
    }
    doc.DropOperations(operations);
    if doc.components.Some? {
      doc.DropComponents(keep.value);
      KeptIsMinified(data, ChosenRefs(choice), keep.value, Child(data, COMPONENTS).value);
    }
    return Ok(doc), choice;
  }

  lemma KeptIsMinified(doc: Fields, roots: set<string>, preserve: Preserve, components: Fields)
    requires PreservesNeeded(doc, roots, preserve)
    ensures ComponentsKept(components, preserve, FILTERED) == MinifyComponents(doc, roots, components)
  {
    forall kind | kind in components && components[kind].Obj?
      ensures NamesKept(components[kind].fields, preserve, kind)
              == MinifyKind(doc, roots, kind, components[kind].fields)
    {
    }
  }
}
