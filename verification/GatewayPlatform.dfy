/** LogicPlatforms, the objects the operator writes for their gateways, and the names of
    those objects, which two platforms can share. */
module GatewayPlatform {
  import opened Kubernetes
  import opened Wrappers

  /** A uid is unique, so it may be pictured with the key it was given out for. */
  datatype Uid = Uid(key: Key, serial: nat)

  datatype Finalizer = GatewayCleanup | OtherFinalizer(name: string)

  datatype Gateway = Gateway(ingressEnabled: bool)

  datatype Platform = Platform(uid: Uid, deleting: bool, finalizers: seq<Finalizer>, gateway: Option<Gateway>)

  datatype Kind = Ingress | Route | Service | Deployment | ServiceAccount

  datatype ObjectKey = ObjectKey(kind: Kind, ns: string, name: string)

  datatype Owner = PlatformOwner(uid: Uid) | OtherOwner(id: nat)

  /** A ClusterRoleBinding with the platform its labels name. */
  datatype Binding = Binding(platform: Key, byOperator: bool, owners: set<Owner>, roleRef: string)

  const GATEWAY_ROLE := "logic-operator-workflow-gateway"
  const GATEWAY_SUFFIX := "-workflow-gateway"
  const MAX_NAME := 63

  function Truncate(s: string): string {
    if |s| > MAX_NAME then s[..MAX_NAME] else s
  }

  function GatewayName(key: Key): string {
    Truncate(key.name + GATEWAY_SUFFIX)
  }

  function Joined(key: Key): string {
    key.ns + "-" + key.name
  }

  function BindingName(key: Key): string {
    Truncate(Joined(key) + GATEWAY_SUFFIX)
  }

  /** The gateway object of a kind that a platform writes. */
  function ObjectOf(kind: Kind, key: Key): ObjectKey {
    ObjectKey(kind, key.ns, GatewayName(key))
  }

  /** The names in full: the suffix, a cut at 63 characters, and for bindings the
      namespace in front. */
  lemma NamesSpelled(key: Key)
    ensures |key.name| <= 46 ==> GatewayName(key) == key.name + "-workflow-gateway"
    ensures |key.name| > 46 ==> GatewayName(key) == (key.name + "-workflow-gateway")[..63]
    ensures |key.ns| + |key.name| <= 45 ==> BindingName(key) == key.ns + "-" + key.name + "-workflow-gateway"
    ensures |key.ns| + |key.name| > 45 ==> BindingName(key) == (key.ns + "-" + key.name + "-workflow-gateway")[..63]
    ensures forall kind: Kind :: ObjectOf(kind, key) == ObjectKey(kind, key.ns, GatewayName(key))
    ensures GATEWAY_ROLE == "logic-operator-workflow-gateway"
  {
  }

  // ---------- When two platforms share a name

  /** Two different texts that the suffix and the cut make equal: the longer one continues
      the other's suffixed name, or ends just where the suffix starts again. */
  predicate CutClash(x: string, y: string) {
    || (|y| >= MAX_NAME && y[..MAX_NAME] == Truncate(x + GATEWAY_SUFFIX))
    || (|x| == 53 && y == x + "-workflow")
  }

  lemma CutAt(x: string, i: nat)
    requires i < |Truncate(x + GATEWAY_SUFFIX)|
    ensures Truncate(x + GATEWAY_SUFFIX)[i] == if i < |x| then x[i] else GATEWAY_SUFFIX[i - |x|]
  {
  }

  /** Between cut texts of 46 to 62 characters the suffix must overlap itself. */
  lemma CutInsideSuffix(x: string, y: string)
    requires |x| <= |y| < MAX_NAME < |y| + |GATEWAY_SUFFIX|
    requires Truncate(x + GATEWAY_SUFFIX) == Truncate(y + GATEWAY_SUFFIX)
    ensures x == y || (|x| == 53 && y == x + "-workflow")
  {
    var d := |y| - |x|;
    forall i | 0 <= i < |y|
      ensures y[i] == if i < |x| then x[i] else GATEWAY_SUFFIX[i - |x|]
    {
      CutAt(x, i);
      CutAt(y, i);
    }
    CutAt(x, |y|);
    CutAt(y, |y|);
    assert GATEWAY_SUFFIX[d] == GATEWAY_SUFFIX[0];
    if d == 0 {
      assert x == y;
    } else {
      assert d == 9;
      if |y| + 1 < MAX_NAME {
        CutAt(x, |y| + 1);
        CutAt(y, |y| + 1);
        assert false;
      }
      assert GATEWAY_SUFFIX[..9] == "-workflow";
      assert y == x + "-workflow";
    }
  }

  lemma SuffixedIff(x: string, y: string)
    requires |x| <= |y|
    ensures Truncate(x + GATEWAY_SUFFIX) == Truncate(y + GATEWAY_SUFFIX) <==> x == y || CutClash(x, y)
  {
    var s, t := x + GATEWAY_SUFFIX, y + GATEWAY_SUFFIX;
    if |t| <= MAX_NAME {
      assert s[..|x|] == x && t[..|y|] == y;
    } else if |y| >= MAX_NAME {
      assert t[..MAX_NAME] == y[..MAX_NAME];
    } else {
      if |x| == 53 && y == x + "-workflow" {
        assert s[..MAX_NAME] == t[..MAX_NAME];
      }
      if Truncate(s) == Truncate(t) {
        CutInsideSuffix(x, y);
      }
    }
  }

  /** Gateway names are equal exactly for equal platform names and for clashes of the cut. */
  lemma GatewayNamesEqualIff(a: Key, b: Key)
    ensures GatewayName(a) == GatewayName(b)
        <==> a.name == b.name || CutClash(a.name, b.name) || CutClash(b.name, a.name)
  {
    if |a.name| <= |b.name| {
      SuffixedIff(a.name, b.name);
    } else {
      SuffixedIff(b.name, a.name);
    }
  }

  /** No name up to 46 characters clashes with another of them; one of 46 already does with
      its own suffixed name. */
  lemma GatewayNamesInjective(a: Key, b: Key)
    requires |a.name| <= MAX_NAME - |GATEWAY_SUFFIX| && |b.name| <= MAX_NAME - |GATEWAY_SUFFIX|
    ensures GatewayName(a) == GatewayName(b) <==> a.name == b.name
    ensures |a.name| == MAX_NAME - |GATEWAY_SUFFIX| ==>
              GatewayName(Key(a.ns, a.name + GATEWAY_SUFFIX)) == GatewayName(a)
  {
    GatewayNamesEqualIff(a, b);
    if |a.name| == MAX_NAME - |GATEWAY_SUFFIX| {
      var suffixed := Key(a.ns, a.name + GATEWAY_SUFFIX);
      assert CutClash(a.name, suffixed.name);
      GatewayNamesEqualIff(a, suffixed);
    }
  }

  /** The first key's name hands the start of it over to the second key's namespace. */
  ghost predicate Shifted(a: Key, b: Key) {
    exists t: string :: b.ns == a.ns + "-" + t && a.name == t + "-" + b.name
  }

  lemma ShiftedWhenLonger(a: Key, b: Key)
    requires |a.ns| <= |b.ns| && Joined(a) == Joined(b)
    ensures a == b || Shifted(a, b)
  {
    var s := Joined(b);
    assert s[..|a.ns|] == a.ns && s[|a.ns| + 1..] == a.name;
    assert s[..|b.ns|] == b.ns && s[|b.ns| + 1..] == b.name;
    if |a.ns| < |b.ns| {
      var t := b.ns[|a.ns| + 1..];
      assert b.ns == a.ns + "-" + t;
      assert a.name == t + "-" + b.name;
    }
  }

  lemma JoinedIff(a: Key, b: Key)
    ensures Joined(a) == Joined(b) <==> a == b || Shifted(a, b) || Shifted(b, a)
  {
    var s, t := Joined(a), Joined(b);
    if Shifted(a, b) {
      var u :| b.ns == a.ns + "-" + u && a.name == u + "-" + b.name;
      assert t == a.ns + "-" + (u + "-" + b.name) == s;
    }
    if Shifted(b, a) {
      var u :| a.ns == b.ns + "-" + u && b.name == u + "-" + a.name;
      assert s == b.ns + "-" + (u + "-" + a.name) == t;
    }
    if s == t {
      if |a.ns| <= |b.ns| {
        ShiftedWhenLonger(a, b);
      } else {
        ShiftedWhenLonger(b, a);
      }
    }
  }

  /** Binding names are equal exactly for equal platforms, for platforms whose namespace
      and name join to the same text, and for clashes of the cut on the joined texts. */
  lemma BindingNamesEqualIff(a: Key, b: Key)
    ensures BindingName(a) == BindingName(b)
        <==> || a == b || Shifted(a, b) || Shifted(b, a)
             || CutClash(Joined(a), Joined(b)) || CutClash(Joined(b), Joined(a))
  {
    var x, y := Joined(a), Joined(b);
    JoinedIff(a, b);
    if |x| <= |y| {
      SuffixedIff(x, y);
    } else {
      SuffixedIff(y, x);
    }
  }

  // ---------- Finalizers

  predicate HasFinalizer(finalizers: seq<Finalizer>) {
    GatewayCleanup in finalizers
  }

  /** The finalizers other than the gateway's, in their order. */
  function Without(finalizers: seq<Finalizer>): (rest: seq<Finalizer>)
    ensures GatewayCleanup !in rest
    ensures forall f :: f in rest <==> f in finalizers && f != GatewayCleanup
    ensures GatewayCleanup !in finalizers ==> rest == finalizers
    decreases |finalizers|
  {
    if finalizers == [] then []
    else
      var n := |finalizers| - 1;
      assert finalizers == finalizers[..n] + [finalizers[n]];
      Without(finalizers[..n]) + if finalizers[n] == GatewayCleanup then [] else [finalizers[n]]
  }

  method HasFinalizerWorkflowGateway(finalizers: seq<Finalizer>) returns (found: bool)
    ensures found == HasFinalizer(finalizers)
  {
    for i := 0 to |finalizers|
      invariant GatewayCleanup !in finalizers[..i]
    {
      if finalizers[i] == GatewayCleanup {
        return true;
      }
    }
    return false;
  }

  method RemoveFinalizerWorkflowGateway(finalizers: seq<Finalizer>) returns (rest: seq<Finalizer>)
    ensures rest == Without(finalizers)
  {
    rest := [];
    for i := 0 to |finalizers|
      invariant rest == Without(finalizers[..i])
    {
      assert finalizers[..i + 1][..i] == finalizers[..i];
      if finalizers[i] != GatewayCleanup {
        rest := rest + [finalizers[i]];
      }
    }
    assert finalizers[..|finalizers|] == finalizers;
  }

  /** Removing what was just appended gives the list back. */
  lemma RemoveUndoesAppend(finalizers: seq<Finalizer>)
    requires !HasFinalizer(finalizers)
    ensures Without(finalizers + [GatewayCleanup]) == finalizers
  {
    assert (finalizers + [GatewayCleanup])[..|finalizers|] == finalizers;
  }

  lemma WithoutOne(f: Finalizer)
    ensures Without([f]) == if f == GatewayCleanup then [] else [f]
  {
    assert [f][..0] == [];
  }

  /** Removal works part by part, and so by WithoutOne item by item. */
  lemma {:induction false} WithoutConcat(a: seq<Finalizer>, b: seq<Finalizer>)
    ensures Without(a + b) == Without(a) + Without(b)
    decreases |b|
  {
    if b == [] {
      assert a + b == a;
    } else {
      var n := |b| - 1;
      assert (a + b)[..|a + b| - 1] == a + b[..n];
      WithoutConcat(a, b[..n]);
    }
  }

  /** What stands before and after one of the gateway's finalizers comes back as it was. */
  lemma WithoutParts(a: seq<Finalizer>, b: seq<Finalizer>)
    ensures Without(a + [GatewayCleanup] + b) == Without(a) + Without(b)
  {
    WithoutConcat(a + [GatewayCleanup], b);
    WithoutConcat(a, [GatewayCleanup]);
    WithoutOne(GatewayCleanup);
  }
}
