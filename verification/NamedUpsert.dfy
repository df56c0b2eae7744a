/** AddOrReplaceVolume, AddOrReplaceVolumeMount and AddOrReplaceEnvVar: one algorithm on
    lists of named entries, replacing in place and appending in order. */
module NamedUpsert {

  datatype Named<T> = Named(name: string, value: T)

  // ---------- Specification

  predicate HasName<T>(entries: seq<Named<T>>, name: string) {
    exists i :: 0 <= i < |entries| && entries[i].name == name
  }

  ghost predicate UniqueNames<T>(entries: seq<Named<T>>) {
    forall i, j | 0 <= i < j < |entries| :: entries[i].name != entries[j].name
  }

  function ReplaceFirst<T>(entries: seq<Named<T>>, item: Named<T>): (r: seq<Named<T>>)
    ensures |r| == |entries| && forall i | 0 <= i < |r| :: r[i].name == entries[i].name
    decreases |entries|
  {
    if entries == [] then []
    else if entries[0].name == item.name then [item] + entries[1..]
    else [entries[0]] + ReplaceFirst(entries[1..], item)
  }

  function ReplaceAll<T>(entries: seq<Named<T>>, items: seq<Named<T>>): (r: seq<Named<T>>)
    ensures |r| == |entries| && forall i | 0 <= i < |r| :: r[i].name == entries[i].name
    decreases |items|
  {
    if items == [] then entries
    else ReplaceFirst(ReplaceAll(entries, items[..|items| - 1]), items[|items| - 1])
  }

  /** The items whose name is new, in their order. */
  function Missing<T>(entries: seq<Named<T>>, items: seq<Named<T>>): seq<Named<T>>
    decreases |items|
  {
    if items == [] then []
    else Missing(entries, items[..|items| - 1])
         + if HasName(entries, items[|items| - 1].name) then [] else [items[|items| - 1]]
  }

  function Upserted<T>(entries: seq<Named<T>>, items: seq<Named<T>>): seq<Named<T>> {
    ReplaceAll(entries, items) + Missing(entries, items)
  }

  // ---------- The loops

  lemma {:induction false} ReplaceFirstAt<T>(entries: seq<Named<T>>, i: nat, item: Named<T>)
    requires i < |entries| && entries[i].name == item.name
    requires forall j | 0 <= j < i :: entries[j].name != item.name
    ensures ReplaceFirst(entries, item) == entries[i := item]
  {
    if i > 0 {
      ReplaceFirstAt(entries[1..], i - 1, item);
    }
  }

  lemma {:induction false} ReplaceFirstAbsent<T>(entries: seq<Named<T>>, item: Named<T>)
    requires !HasName(entries, item.name)
    ensures ReplaceFirst(entries, item) == entries
    decreases |entries|
  {
    if entries != [] {
      assert entries[0].name != item.name;
      assert forall i | 0 <= i < |entries| - 1 :: entries[1..][i] == entries[i + 1];
      ReplaceFirstAbsent(entries[1..], item);
    }
  }

  class Holder<T> {
    var entries: seq<Named<T>>

    constructor (entries: seq<Named<T>>)
      ensures this.entries == entries
    {
      this.entries := entries;
    }

    /** The inner loop: overwrites the first entry of the item's name. */
    method ReplaceExisting(item: Named<T>) returns (wasAdded: bool)
      modifies this
      ensures wasAdded == HasName(old(entries), item.name)
      ensures entries == ReplaceFirst(old(entries), item)
    {
      wasAdded := false;
      var i := 0;
      while !wasAdded && i < |entries|
        invariant 0 <= i <= |old(entries)|
        invariant !wasAdded ==> entries == old(entries) && forall j | 0 <= j < i :: entries[j].name != item.name
        invariant wasAdded ==> HasName(old(entries), item.name) && entries == ReplaceFirst(old(entries), item)
        decreases |old(entries)| - i, !wasAdded
      {
        if item.name == entries[i].name {
          ReplaceFirstAt(entries, i, item);
          entries := entries[i := item];
          wasAdded := true;
        }
        i := i + 1;
      }
      if !wasAdded {
        ReplaceFirstAbsent(entries, item);
      }
    }

    method AddOrReplace(items: seq<Named<T>>)
      modifies this
      ensures entries == Upserted(old(entries), items)
    {
      var toAdd := [];
      for n := 0 to |items|
        invariant entries == ReplaceAll(old(entries), items[..n])
        invariant toAdd == Missing(old(entries), items[..n])
      {
        assert items[..n + 1][..n] == items[..n];
        SameNames(old(entries), entries, items[n].name);
        var wasAdded := ReplaceExisting(items[n]);
        if !wasAdded {
          toAdd := toAdd + [items[n]];
        }
      }
      assert items[..|items|] == items;
      entries := entries + toAdd;
    }
  }

  lemma SameNames<T>(a: seq<Named<T>>, b: seq<Named<T>>, name: string)
    requires |a| == |b| && forall i | 0 <= i < |a| :: a[i].name == b[i].name
    ensures HasName(a, name) <==> HasName(b, name)
  {
  }

  // ---------- What an upsert means

  ghost predicate IsFirst<T>(s: seq<Named<T>>, k: nat) {
    k < |s| && forall j | 0 <= j < k :: s[j].name != s[k].name
  }

  function FirstNamed<T>(s: seq<Named<T>>, name: string): (k: nat)
    requires HasName(s, name)
    ensures IsFirst(s, k) && s[k].name == name
    decreases |s|
  {
    var front := s[..|s| - 1];
    if HasName(front, name) then FirstNamed(front, name) else |s| - 1
  }

  function LastNamed<T>(s: seq<Named<T>>, name: string): (k: nat)
    requires HasName(s, name)
    ensures k < |s| && s[k].name == name && forall j | k < j < |s| :: s[j].name != name
    decreases |s|
  {
    if s[|s| - 1].name == name then |s| - 1 else
      assert HasName(s[..|s| - 1], name) by {
        var i :| 0 <= i < |s| && s[i].name == name;
        assert s[..|s| - 1][i] == s[i];
      }
      LastNamed(s[..|s| - 1], name)
  }

  lemma ReplaceFirstOf<T>(entries: seq<Named<T>>, item: Named<T>, i: nat)
    requires i < |entries|
    ensures ReplaceFirst(entries, item)[i]
         == if IsFirst(entries, i) && entries[i].name == item.name then item else entries[i]
  {
    if HasName(entries, item.name) {
      ReplaceFirstAt(entries, FirstNamed(entries, item.name), item);
    } else {
      ReplaceFirstAbsent(entries, item);
    }
  }

  /** The first entry of a name that items have becomes the last item of that name; every
      other entry stays as it is. */
  lemma {:induction false} ReplacedAt<T>(entries: seq<Named<T>>, items: seq<Named<T>>, i: nat)
    requires i < |entries|
    ensures ReplaceAll(entries, items)[i]
         == if IsFirst(entries, i) && HasName(items, entries[i].name)
            then items[LastNamed(items, entries[i].name)] else entries[i]
    decreases |items|
  {
    if items != [] {
      var front, last := items[..|items| - 1], items[|items| - 1];
      ReplacedAt(entries, front, i);
      ReplaceFirstOf(ReplaceAll(entries, front), last, i);
      if last.name != entries[i].name && HasName(items, entries[i].name) {
        assert front[LastNamed(items, entries[i].name)].name == entries[i].name;
      }
      if HasName(front, entries[i].name) {
        assert items[LastNamed(front, entries[i].name)].name == entries[i].name;
      }
    }
  }

  lemma {:induction false} MissingMember<T>(entries: seq<Named<T>>, items: seq<Named<T>>, x: Named<T>)
    ensures x in Missing(entries, items) <==> x in items && !HasName(entries, x.name)
    decreases |items|
  {
    if items != [] {
      var front, last := items[..|items| - 1], items[|items| - 1];
      MissingMember(entries, front, x);
      assert items == front + [last];
    }
  }

  lemma MissingOne<T>(entries: seq<Named<T>>, item: Named<T>)
    ensures Missing(entries, [item]) == if HasName(entries, item.name) then [] else [item]
  {
    assert [item][..0] == [];
  }

  /** New items follow part by part, and so by MissingOne item by item. */
  lemma {:induction false} MissingConcat<T>(entries: seq<Named<T>>, a: seq<Named<T>>, b: seq<Named<T>>)
    ensures Missing(entries, a + b) == Missing(entries, a) + Missing(entries, b)
    decreases |b|
  {
    if b == [] {
      assert a + b == a;
    } else {
      var n := |b| - 1;
      assert (a + b)[..|a + b| - 1] == a + b[..n];
      MissingConcat(entries, a, b[..n]);
    }
  }

  lemma NamedMember<T>(s: seq<Named<T>>, name: string)
    ensures HasName(s, name) <==> exists x :: x in s && x.name == name
  {
    if x :| x in s && x.name == name {
      var i :| 0 <= i < |s| && s[i] == x;
    }
  }

  lemma MissingName<T>(entries: seq<Named<T>>, items: seq<Named<T>>, name: string)
    ensures HasName(Missing(entries, items), name) <==> HasName(items, name) && !HasName(entries, name)
  {
    var m := Missing(entries, items);
    NamedMember(items, name);
    NamedMember(m, name);
    if x :| x in m && x.name == name {
      MissingMember(entries, items, x);
    }
    if !HasName(entries, name) {
      if x :| x in items && x.name == name {
        MissingMember(entries, items, x);
      }
    }
  }

  /** The first new entry of a name is the first item of that name. */
  lemma {:induction false} FirstMissing<T>(entries: seq<Named<T>>, items: seq<Named<T>>, name: string)
    requires HasName(items, name) && !HasName(entries, name)
    ensures HasName(Missing(entries, items), name)
    ensures Missing(entries, items)[FirstNamed(Missing(entries, items), name)] == items[FirstNamed(items, name)]
    decreases |items|
  {
    var front, last := items[..|items| - 1], items[|items| - 1];
    var m, before := Missing(entries, items), Missing(entries, front);
    MissingName(entries, items, name);
    MissingName(entries, front, name);
    if HasName(front, name) {
      FirstMissing(entries, front, name);
    }
    if m != before {
      assert m == before + [last] && m[..|m| - 1] == before;
    }
  }

  lemma {:induction false} MissingUnique<T>(entries: seq<Named<T>>, items: seq<Named<T>>)
    requires UniqueNames(items)
    ensures UniqueNames(Missing(entries, items))
    decreases |items|
  {
    if items != [] {
      var front, last := items[..|items| - 1], items[|items| - 1];
      MissingUnique(entries, front);
      MissingName(entries, front, last.name);
      assert !HasName(front, last.name);
    }
  }

  /** Old entries keep their places and names, and their values unless they are the first
      of a name that items have; new ones follow in argument order. Unique names on both
      sides stay unique. */
  lemma UpsertKeepsOrder<T>(entries: seq<Named<T>>, items: seq<Named<T>>)
    ensures var r := Upserted(entries, items);
            && |entries| <= |r|
            && (forall i | 0 <= i < |entries| ::
                  r[i] == if IsFirst(entries, i) && HasName(items, entries[i].name)
                          then items[LastNamed(items, entries[i].name)] else entries[i])
            && r[|entries|..] == Missing(entries, items)
            && (UniqueNames(entries) && UniqueNames(items) ==> UniqueNames(r))
  {
    var r := Upserted(entries, items);
    forall i | 0 <= i < |entries|
      ensures r[i] == if IsFirst(entries, i) && HasName(items, entries[i].name)
                      then items[LastNamed(items, entries[i].name)] else entries[i]
    {
      ReplacedAt(entries, items, i);
    }
    if UniqueNames(entries) && UniqueNames(items) {
      MissingUnique(entries, items);
      forall i, j | 0 <= i < |entries| <= j < |r|
        ensures r[i].name != r[j].name
      {
        MissingName(entries, items, r[j].name);
        assert Missing(entries, items)[j - |entries|] == r[j];
      }
    }
  }

  lemma FirstIsFound<T>(s: seq<Named<T>>, k: nat)
    requires IsFirst(s, k)
    ensures HasName(s, s[k].name) && FirstNamed(s, s[k].name) == k
  {
    assert HasName(s, s[k].name);
  }

  /** A name keeps its first place in front of other entries. */
  lemma FirstInFront<T>(a: seq<Named<T>>, b: seq<Named<T>>, name: string)
    requires HasName(a, name)
    ensures HasName(a + b, name) && FirstNamed(a + b, name) == FirstNamed(a, name)
  {
    var k := FirstNamed(a, name);
    assert forall j | 0 <= j <= k :: (a + b)[j] == a[j];
    FirstIsFound(a + b, k);
  }

  lemma FirstBehind<T>(a: seq<Named<T>>, b: seq<Named<T>>, name: string)
    requires !HasName(a, name)
    ensures HasName(a + b, name) <==> HasName(b, name)
    ensures HasName(b, name) ==> FirstNamed(a + b, name) == |a| + FirstNamed(b, name)
  {
    var s := a + b;
    if HasName(b, name) {
      var k := FirstNamed(b, name);
      forall j | 0 <= j < |a| + k
        ensures s[j].name != name
      {
        assert s[j] == if j < |a| then a[j] else b[j - |a|];
      }
      assert s[|a| + k] == b[k];
      FirstIsFound(s, |a| + k);
    } else {
      forall j | 0 <= j < |s|
        ensures s[j].name != name
      {
        assert s[j] == if j < |a| then a[j] else b[j - |a|];
      }
    }
  }

  /** As a map from names to values, which keeps the first entry of a name, an upsert is an
      update: the last item of a known name wins, the first of a new one, the rest stays. */
  lemma UpsertIsMapUpdate<T>(entries: seq<Named<T>>, items: seq<Named<T>>, name: string)
    ensures var r := Upserted(entries, items);
            && (HasName(r, name) <==> HasName(entries, name) || HasName(items, name))
            && (HasName(r, name) ==>
                  r[FirstNamed(r, name)]
                  == if HasName(entries, name) && HasName(items, name) then items[LastNamed(items, name)]
                     else if HasName(entries, name) then entries[FirstNamed(entries, name)]
                     else items[FirstNamed(items, name)])
  {
    var old', new' := ReplaceAll(entries, items), Missing(entries, items);
    SameNames(entries, old', name);
    if HasName(entries, name) {
      FirstInFront(old', new', name);
      var k := FirstNamed(entries, name);
      FirstIsFound(old', k);
      ReplacedAt(entries, items, k);
    } else {
      FirstBehind(old', new', name);
      MissingName(entries, items, name);
      if HasName(items, name) {
        FirstMissing(entries, items, name);
      }
    }
  }

  lemma {:induction false} MissingNone<T>(entries: seq<Named<T>>, items: seq<Named<T>>)
    requires forall x | x in items :: HasName(entries, x.name)
    ensures Missing(entries, items) == []
    decreases |items|
  {
    if items != [] {
      assert items[|items| - 1] in items;
      MissingNone(entries, items[..|items| - 1]);
    }
  }

  /** No new name comes with two different items, one first and one last. */
  ghost predicate NewNamesSettled<T>(entries: seq<Named<T>>, items: seq<Named<T>>) {
    forall name | HasName(items, name) && !HasName(entries, name) ::
      items[FirstNamed(items, name)] == items[LastNamed(items, name)]
  }

  /** A second application only replaces: it changes the first entry of some name, if any. */
  lemma SecondUpsert<T>(entries: seq<Named<T>>, items: seq<Named<T>>)
    ensures var r := Upserted(entries, items);
            Upserted(r, items) == ReplaceAll(r, items)
  {
    var r := Upserted(entries, items);
    forall x | x in items
      ensures HasName(r, x.name)
    {
      NamedMember(items, x.name);
      UpsertIsMapUpdate(entries, items, x.name);
    }
    MissingNone(r, items);
  }

  /** A second application changes nothing exactly when, for every name not yet among the
      entries, the first and the last item of that name are equal. */
  lemma UpsertIdempotentIff<T>(entries: seq<Named<T>>, items: seq<Named<T>>)
    ensures Upserted(Upserted(entries, items), items) == Upserted(entries, items)
        <==> NewNamesSettled(entries, items)
  {
    var r := Upserted(entries, items);
    SecondUpsert(entries, items);
    if NewNamesSettled(entries, items) {
      forall k | 0 <= k < |r|
        ensures ReplaceAll(r, items)[k] == r[k]
      {
        ReplacedAt(r, items, k);
        UpsertIsMapUpdate(entries, items, r[k].name);
      }
    } else {
      var name :| HasName(items, name) && !HasName(entries, name)
                  && items[FirstNamed(items, name)] != items[LastNamed(items, name)];
      UpsertIsMapUpdate(entries, items, name);
      ReplacedAt(r, items, FirstNamed(r, name));
    }
  }

  /** So it changes nothing when the items have unique names, and when every item's name
      is already an entry, duplicates or not. */
  lemma UpsertIdempotent<T>(entries: seq<Named<T>>, items: seq<Named<T>>)
    requires UniqueNames(items) || forall x | x in items :: HasName(entries, x.name)
    ensures Upserted(Upserted(entries, items), items) == Upserted(entries, items)
  {
    forall name | HasName(items, name) && !HasName(entries, name)
      ensures items[FirstNamed(items, name)] == items[LastNamed(items, name)]
    {
      assert items[FirstNamed(items, name)] in items;
    }
    UpsertIdempotentIff(entries, items);
  }

  /** Two different new items of one name make the second application differ. */
  lemma NewDuplicatesNotIdempotent<T>(entries: seq<Named<T>>, name: string, a: T, b: T)
    requires a != b && !HasName(entries, name)
    ensures var items := [Named(name, a), Named(name, b)];
            Upserted(Upserted(entries, items), items) != Upserted(entries, items)
  {
    var items := [Named(name, a), Named(name, b)];
    assert items[0].name == name && items[1].name == name;
    assert HasName(items, name);
    UpsertIdempotentIff(entries, items);
  }
}
