/** deleteWorkflowGatewayResources as it is written, one API call after the other with a
    return on the first error, undisturbed by others. It is a run of the protocol, and
    it gets everything out of the way exactly when nothing foreign is in the way. */
module GatewayCleanup {
  import opened GatewayPlatform
  import opened GatewayProtocol
  import opened Kubernetes
  import opened Wrappers

  /** The protocol's calls of one reconcile, with the fault of each. */
  function Calls(s: Cluster, key: Key, faults: seq<bool>): Cluster
    decreases |faults|
  {
    if faults == [] then s
    else
      var t := Calls(s, key, faults[..|faults| - 1]);
      if key in t.jobs then CallStep(t, key, faults[|faults| - 1]) else t
  }

  function WithJob(s: Cluster, key: Key, plat: Platform, stage: Stage): Cluster {
    s.(jobs := s.jobs[key := Job(plat, true, stage)])
  }

  lemma CallsSnoc(s: Cluster, key: Key, faults: seq<bool>, fault: bool)
    ensures Calls(s, key, faults + [fault]) == var t := Calls(s, key, faults);
                                               if key in t.jobs then CallStep(t, key, fault) else t
  {
  }

  lemma WithoutJob(s: Cluster, key: Key, plat: Platform, stage: Stage)
    requires key !in s.jobs
    ensures End(WithJob(s, key, plat, stage), key) == s
  {
  }

  ghost predicate FaultFree(faulty: nat -> bool) {
    forall c :: !faulty(c)
  }

  /** The kinds that a cleanup insists on owning. */
  predicate Strict(kind: Kind) {
    !kind.Ingress? && !kind.Route?
  }

  function StageAfter(kind: Kind, openShift: bool): Stage {
    match kind
    case Ingress => if openShift then Look(Route) else Look(Service)
    case Route => Look(Service)
    case Service => Look(Deployment)
    case Deployment => LookBinding
    case ServiceAccount => RemoveFinalizer
  }

  lemma FaultEnds(s: Cluster, key: Key, plat: Platform, stage: Stage)
    requires key !in s.jobs && !stage.Check?
    ensures CallStep(WithJob(s, key, plat, stage), key, true) == s
  {
  }

  lemma GotoWithJob(s: Cluster, key: Key, plat: Platform, stage: Stage, next: Stage)
    ensures Goto(WithJob(s, key, plat, stage), key, next) == WithJob(s, key, plat, next)
  {
  }

  lemma AfterDropWithJob(s: Cluster, key: Key, plat: Platform, stage: Stage, kind: Kind)
    ensures AfterDrop(WithJob(s, key, plat, stage), key, kind) == WithJob(s, key, plat, StageAfter(kind, s.openShift))
  {
  }

  /** What the Get before a deletion leads to. */
  function AfterLook(s: Cluster, key: Key, plat: Platform, kind: Kind): Cluster {
    var o := ObjectOf(kind, key);
    if o in s.objects && OwnsObject(s, plat.uid, o) then WithJob(s, key, plat, Drop(kind))
    else if o in s.objects && Strict(kind) then s
    else WithJob(s, key, plat, StageAfter(kind, s.openShift))
  }

  lemma LookResult(s: Cluster, key: Key, plat: Platform, kind: Kind)
    requires key !in s.jobs
    ensures CallStep(WithJob(s, key, plat, Look(kind)), key, false) == AfterLook(s, key, plat, kind)
  {
    WithoutJob(s, key, plat, Look(kind));
    AfterDropWithJob(s, key, plat, Look(kind), kind);
    GotoWithJob(s, key, plat, Look(kind), Drop(kind));
    assert CallStep(WithJob(s, key, plat, Look(kind)), key, false)
        == LookCall(WithJob(s, key, plat, Look(kind)), key, kind);
  }

  lemma DropResult(s: Cluster, key: Key, plat: Platform, kind: Kind)
    requires key !in s.jobs
    ensures CallStep(WithJob(s, key, plat, Drop(kind)), key, false)
            == WithJob(WithoutObject(s, ObjectOf(kind, key)), key, plat, StageAfter(kind, s.openShift))
  {
    var t := WithoutObject(s, ObjectOf(kind, key));
    AfterDropWithJob(t, key, plat, Drop(kind), kind);
    assert WithoutObject(WithJob(s, key, plat, Drop(kind)), ObjectOf(kind, key)) == WithJob(t, key, plat, Drop(kind));
  }

  lemma BindingResults(s: Cluster, key: Key, plat: Platform)
    requires key !in s.jobs
    ensures var b := BindingName(key);
            CallStep(WithJob(s, key, plat, LookBinding), key, false)
            == if b !in s.bindings then WithJob(s, key, plat, Look(ServiceAccount))
               else if s.bindings[b].platform == key then WithJob(s, key, plat, DropBinding) else s
    ensures CallStep(WithJob(s, key, plat, DropBinding), key, false)
            == WithJob(WithoutBinding(s, BindingName(key)), key, plat, Look(ServiceAccount))
  {
  }

  lemma RemovedAgain(s: Cluster, t: Cluster, u: Cluster, uid: Uid)
    requires OnlyOwnRemoved(s, t, uid) && OnlyOwnRemoved(t, u, uid)
    ensures OnlyOwnRemoved(s, u, uid)
  {
  }

  /** Nothing foreign stands where the platform's objects belong. */
  predicate Removable(s: Cluster, key: Key, uid: Uid) {
    && (forall kind: Kind | Strict(kind) :: OwnOrAbsent(s, uid, ObjectOf(kind, key)))
    && (BindingName(key) in s.bindings ==> s.bindings[BindingName(key)].platform == key)
  }

  predicate OwnOrAbsent(s: Cluster, uid: Uid, o: ObjectKey) {
    o in s.objects ==> OwnsObject(s, uid, o)
  }

  /** Only objects that the platform owned have gone, and nothing else has changed. */
  ghost predicate OnlyOwnRemoved(s: Cluster, t: Cluster, uid: Uid) {
    && t.objects.Keys <= s.objects.Keys
    && (forall o | o in s.objects :: if o in t.objects then t.objects[o] == s.objects[o] else OwnsObject(s, uid, o))
    && t.bindings.Keys <= s.bindings.Keys
    && (forall b | b in t.bindings :: t.bindings[b] == s.bindings[b])
    && (forall b | b in s.bindings && b !in t.bindings :: s.bindings[b].platform == uid.key)
    && t == s.(objects := t.objects, bindings := t.bindings)
  }

  ghost predicate NothingLeft(s: Cluster, key: Key, uid: Uid) {
    && (forall kind: Kind | kind.Route? ==> s.openShift :: !OwnsObject(s, uid, ObjectOf(kind, key)))
    && (forall kind: Kind | Strict(kind) :: ObjectOf(kind, key) !in s.objects)
    && BindingName(key) !in s.bindings
  }

  class GatewayOperator {
    var cluster: Cluster
    var made: nat                 // API calls made by this reconcile
    const faulty: nat -> bool     // which of them fail
    ghost var faults: seq<bool>

    constructor (cluster: Cluster, faulty: nat -> bool)
      ensures this.cluster == cluster && this.faulty == faulty && made == 0 && faults == []
    {
      this.cluster, this.faulty, made, faults := cluster, faulty, 0, [];
    }

    /** The reconcile stands at a stage of the protocol run that began at start. */
    ghost predicate At(start: Cluster, key: Key, plat: Platform, stage: Stage)
      reads this
    {
      && key !in cluster.jobs
      && Calls(WithJob(start, key, plat, Look(Ingress)), key, faults) == WithJob(cluster, key, plat, stage)
    }

    ghost predicate Over(start: Cluster, key: Key, plat: Platform)
      reads this
    {
      key !in cluster.jobs && Calls(WithJob(start, key, plat, Look(Ingress)), key, faults) == cluster
    }

    /** Whether the call at hand fails. */
    method Call(ghost start: Cluster, key: Key, plat: Platform, ghost stage: Stage) returns (fault: bool)
      requires At(start, key, plat, stage)
      modifies this`made, this`faults
      ensures fault == faulty(old(made))
      ensures cluster == old(cluster)
      ensures Calls(WithJob(start, key, plat, Look(Ingress)), key, faults)
              == CallStep(WithJob(cluster, key, plat, stage), key, fault)
    {
      fault := faulty(made);
      made := made + 1;
      CallsSnoc(WithJob(start, key, plat, Look(Ingress)), key, faults, fault);
      faults := faults + [fault];
    }

    /** Get, check the owner, Delete; a missing object is as good as a deleted one. */
    method DeleteOwned(kind: Kind, key: Key, plat: Platform, ghost start: Cluster) returns (ok: bool)
      requires At(start, key, plat, Look(kind))
      modifies this
      ensures if ok then At(start, key, plat, StageAfter(kind, cluster.openShift)) else Over(start, key, plat)
      ensures ok && Strict(kind) ==> ObjectOf(kind, key) !in cluster.objects
      ensures ok ==> !OwnsObject(cluster, plat.uid, ObjectOf(kind, key))
      ensures cluster == old(cluster) || (cluster == WithoutObject(old(cluster), ObjectOf(kind, key))
                                          && OwnsObject(old(cluster), plat.uid, ObjectOf(kind, key)))
      ensures FaultFree(faulty) ==>
                (ok <==> !Strict(kind) || OwnOrAbsent(old(cluster), plat.uid, ObjectOf(kind, key)))
    {
      FaultEnds(cluster, key, plat, Look(kind));
      LookResult(cluster, key, plat, kind);
      var fault := Call(start, key, plat, Look(kind));
      if fault {
        return false;
      }
      var o := ObjectOf(kind, key);
      if o !in cluster.objects {
        return true;
      }
      if PlatformOwner(plat.uid) !in cluster.objects[o] {
        return !Strict(kind);
      }
      ok := Delete(kind, key, plat, start);
    }

    method Delete(kind: Kind, key: Key, plat: Platform, ghost start: Cluster) returns (ok: bool)
      requires At(start, key, plat, Drop(kind))
      modifies this
      ensures if ok then At(start, key, plat, StageAfter(kind, cluster.openShift)) else Over(start, key, plat)
      ensures cluster == if ok then WithoutObject(old(cluster), ObjectOf(kind, key)) else old(cluster)
      ensures FaultFree(faulty) ==> ok
    {
      FaultEnds(cluster, key, plat, Drop(kind));
      DropResult(cluster, key, plat, kind);
      var fault := Call(start, key, plat, Drop(kind));
      if fault {
        return false;
      }
      cluster := WithoutObject(cluster, ObjectOf(kind, key));
      return true;
    }

    method DeleteBinding(key: Key, plat: Platform, ghost start: Cluster) returns (ok: bool)
      requires At(start, key, plat, LookBinding) && plat.uid.key == key
      modifies this
      ensures ok ==> At(start, key, plat, Look(ServiceAccount))
      ensures !ok ==> Over(start, key, plat)
      ensures OnlyOwnRemoved(old(cluster), cluster, plat.uid) && cluster.objects == old(cluster).objects
      ensures cluster.bindings == old(cluster).bindings
              || cluster.bindings == old(cluster).bindings - {BindingName(key)}
      ensures ok ==> BindingName(key) !in cluster.bindings
      ensures FaultFree(faulty) ==>
                (ok <==> BindingName(key) in old(cluster).bindings
                         ==> old(cluster).bindings[BindingName(key)].platform == key)
    {
      var b := BindingName(key);
      FaultEnds(cluster, key, plat, LookBinding);
      BindingResults(cluster, key, plat);
      var fault := Call(start, key, plat, LookBinding);
      if fault {
        return false;
      }
      if b !in cluster.bindings {
        return true;
      }
      if cluster.bindings[b].platform != key {
        return false;
      }
      FaultEnds(cluster, key, plat, DropBinding);
      fault := Call(start, key, plat, DropBinding);
      if fault {
        return false;
      }
      cluster := WithoutBinding(cluster, b);
      return true;
    }

    /** Patches the finalizers back without the gateway's, when it was there. */
    method PatchFinalizers(key: Key, plat: Platform, ghost start: Cluster) returns (ok: bool)
      requires At(start, key, plat, RemoveFinalizer)
      requires key in cluster.platforms && cluster.platforms[key] == plat
      modifies this
      ensures Over(start, key, plat)
      ensures cluster == old(cluster).(platforms := cluster.platforms)
      ensures !ok ==> cluster == old(cluster)
      ensures ok ==> cluster.platforms == Finalized(old(cluster), key, plat)
      ensures FaultFree(faulty) ==> ok
    {
      var found := HasFinalizerWorkflowGateway(plat.finalizers);
      if !found {
        CallsSnoc(WithJob(start, key, plat, Look(Ingress)), key, faults, false);
        NothingToPatch(cluster, key, plat);
        faults := faults + [false];
        return true;
      }
      FaultEnds(cluster, key, plat, Stage.RemoveFinalizer);
      var rest := RemoveFinalizerWorkflowGateway(plat.finalizers);
      var fault := Call(start, key, plat, RemoveFinalizer);
      if fault {
        return false;
      }
      var patched := SetFinalizers(cluster, key, rest).value;
      PatchWithJob(cluster, key, plat, rest);
      cluster := patched;
      return true;
    }

    method DeleteGatewayIngress(key: Key, plat: Platform, ghost start: Cluster) returns (ok: bool)
      requires At(start, key, plat, Look(Ingress))
      modifies this
      ensures ok ==> At(start, key, plat, Look(Service))
      ensures !ok ==> Over(start, key, plat)
      ensures OnlyOwnRemoved(old(cluster), cluster, plat.uid) && cluster.bindings == old(cluster).bindings
      ensures forall o: ObjectKey | Strict(o.kind) :: (o in cluster.objects <==> o in old(cluster).objects)
      ensures ok ==> !OwnsObject(cluster, plat.uid, ObjectOf(Ingress, key))
      ensures ok && cluster.openShift ==> !OwnsObject(cluster, plat.uid, ObjectOf(Route, key))
      ensures FaultFree(faulty) ==> ok
    {
      ghost var before := cluster;
      ok := DeleteOwned(Ingress, key, plat, start);
      if ok && cluster.openShift {
        ghost var between := cluster;
        ok := DeleteOwned(Route, key, plat, start);
        RemovedAgain(before, between, cluster, plat.uid);
      }
    }

    method DeleteServiceAndDeployment(key: Key, plat: Platform, ghost start: Cluster) returns (ok: bool)
      requires At(start, key, plat, Look(Service))
      modifies this
      ensures if ok then At(start, key, plat, LookBinding) else Over(start, key, plat)
      ensures OnlyOwnRemoved(old(cluster), cluster, plat.uid)
      ensures ok ==> ObjectOf(Service, key) !in cluster.objects && ObjectOf(Deployment, key) !in cluster.objects
      ensures FaultFree(faulty) ==>
                (ok <==> OwnOrAbsent(old(cluster), plat.uid, ObjectOf(Service, key))
                         && OwnOrAbsent(old(cluster), plat.uid, ObjectOf(Deployment, key)))
    {
      ghost var before := cluster;
      ok := DeleteOwned(Service, key, plat, start);
      if ok {
        ghost var between := cluster;
        ok := DeleteOwned(Deployment, key, plat, start);
        RemovedAgain(before, between, cluster, plat.uid);
      }
    }

    method DeleteBindingAndServiceAccount(key: Key, plat: Platform, ghost start: Cluster) returns (ok: bool)
      requires At(start, key, plat, LookBinding) && plat.uid.key == key
      modifies this
      ensures if ok then At(start, key, plat, Stage.RemoveFinalizer) else Over(start, key, plat)
      ensures OnlyOwnRemoved(old(cluster), cluster, plat.uid)
      ensures ok ==> BindingName(key) !in cluster.bindings && ObjectOf(ServiceAccount, key) !in cluster.objects
      ensures FaultFree(faulty) && Removable(old(cluster), key, plat.uid) ==> ok
    {
      ghost var before := cluster;
      ok := DeleteBinding(key, plat, start);
      if ok {
        ghost var between := cluster;
        RemovableStays(before, cluster, key, plat.uid);
        ok := DeleteOwned(ServiceAccount, key, plat, start);
        RemovedAgain(before, between, cluster, plat.uid);
      }
    }

    method DeleteObjects(key: Key, plat: Platform, ghost start: Cluster) returns (ok: bool)
      requires At(start, key, plat, Look(Ingress)) && plat.uid.key == key
      modifies this
      ensures if ok then At(start, key, plat, Stage.RemoveFinalizer) else Over(start, key, plat)
      ensures OnlyOwnRemoved(old(cluster), cluster, plat.uid)
      ensures ok ==> NothingLeft(cluster, key, plat.uid)
      ensures FaultFree(faulty) && Removable(old(cluster), key, plat.uid) ==> ok
    {
      ghost var c0 := cluster;
      ok := DeleteGatewayIngress(key, plat, start);
      RemovableStays(c0, cluster, key, plat.uid);
      if !ok {
        return;
      }
      ghost var c1 := cluster;
      ok := DeleteServiceAndDeployment(key, plat, start);
      RemovableStays(c1, cluster, key, plat.uid);
      RemovedAgain(c0, c1, cluster, plat.uid);
      if !ok {
        return;
      }
      ghost var c2 := cluster;
      ok := DeleteBindingAndServiceAccount(key, plat, start);
      RemovedAgain(c0, c2, cluster, plat.uid);
      if ok {
        GoneIsNothingLeft(c1, c2, cluster, key, plat.uid);
      }
    }

    /** The whole cleanup of a platform that is as it was read. */
    method DeleteWorkflowGatewayResources(key: Key, plat: Platform) returns (ok: bool)
      requires key in cluster.platforms && cluster.platforms[key] == plat && plat.uid.key == key
      requires key !in cluster.jobs && faults == []
      modifies this
      // it is one undisturbed run of the protocol
      ensures Over(old(cluster), key, plat)
      // on success nothing is left and the finalizer is off, or the platform gone with it
      ensures ok ==> NothingLeft(cluster, key, plat.uid) && cluster.platforms == Finalized(old(cluster), key, plat)
      // on failure the finalizer stays, and only the platform's own objects may have gone
      ensures !ok ==> cluster.platforms == old(cluster).platforms
      ensures OnlyOwnRemoved(old(cluster), cluster.(platforms := old(cluster).platforms), plat.uid)
      // without faults it succeeds exactly when nothing foreign is in the way
      ensures FaultFree(faulty) ==> (ok <==> Removable(old(cluster), key, plat.uid))
    {
      ghost var start := cluster;
      ok := DeleteObjects(key, plat, start);
      RemovableStays(start, cluster, key, plat.uid);
      if ok {
        ok := PatchFinalizers(key, plat, start);
      }
    }
  }

  lemma RemovableStays(s: Cluster, t: Cluster, key: Key, uid: Uid)
    requires OnlyOwnRemoved(s, t, uid)
    ensures Removable(s, key, uid) ==> Removable(t, key, uid)
    ensures NothingLeft(t, key, uid) && uid.key == key ==> Removable(s, key, uid)
  {
  }

  lemma GoneIsNothingLeft(c1: Cluster, c2: Cluster, t: Cluster, key: Key, uid: Uid)
    requires OnlyOwnRemoved(c1, c2, uid) && OnlyOwnRemoved(c2, t, uid)
    requires !OwnsObject(c1, uid, ObjectOf(Ingress, key))
    requires c1.openShift ==> !OwnsObject(c1, uid, ObjectOf(Route, key))
    requires ObjectOf(Service, key) !in c2.objects && ObjectOf(Deployment, key) !in c2.objects
    requires BindingName(key) !in t.bindings && ObjectOf(ServiceAccount, key) !in t.objects
    ensures NothingLeft(t, key, uid)
  {
    forall kind: Kind | kind.Route? ==> t.openShift
      ensures !OwnsObject(t, uid, ObjectOf(kind, key))
    {
      var o := ObjectOf(kind, key);
      if o in t.objects {
        assert t.objects[o] == c2.objects[o] == c1.objects[o];
      }
    }
  }

  /** The platforms once the gateway's finalizer is off. */
  function Finalized(s: Cluster, key: Key, plat: Platform): map<Key, Platform> {
    if plat.deleting && HasFinalizer(plat.finalizers) && Without(plat.finalizers) == [] then s.platforms - {key}
    else s.platforms[key := plat.(finalizers := Without(plat.finalizers))]
  }

  /** The platform goes when it is being deleted and the gateway's finalizer was its only
      kind; otherwise it keeps all but that, and no other platform changes. */
  lemma FinalizedMeaning(s: Cluster, key: Key, plat: Platform)
    requires key in s.platforms && s.platforms[key] == plat
    ensures var t := Finalized(s, key, plat);
            && (key !in t <==> plat.deleting && GatewayCleanup in plat.finalizers
                               && forall f | f in plat.finalizers :: f == GatewayCleanup)
            && (key in t ==> t[key] == plat.(finalizers := Without(plat.finalizers)))
            && forall k | k != key :: (k in t <==> k in s.platforms) && (k in t ==> t[k] == s.platforms[k])
  {
    var rest := Without(plat.finalizers);
    if rest != [] {
      assert rest[0] in rest;
    }
  }

  lemma NothingToPatch(s: Cluster, key: Key, plat: Platform)
    requires key !in s.jobs && !HasFinalizer(plat.finalizers) && key in s.platforms && s.platforms[key] == plat
    ensures CallStep(WithJob(s, key, plat, RemoveFinalizer), key, false) == s
    ensures Finalized(s, key, plat) == s.platforms
  {
    WithoutJob(s, key, plat, RemoveFinalizer);
  }

  lemma PatchWithJob(s: Cluster, key: Key, plat: Platform, rest: seq<Finalizer>)
    requires key in s.platforms && s.platforms[key] == plat && key !in s.jobs
    requires HasFinalizer(plat.finalizers) && rest == Without(plat.finalizers)
    ensures SetFinalizers(s, key, rest).Some?
    ensures CallStep(WithJob(s, key, plat, RemoveFinalizer), key, false) == SetFinalizers(s, key, rest).value
    ensures SetFinalizers(s, key, rest).value == s.(platforms := Finalized(s, key, plat))
  {
  }

  // ---------- The run belongs to the protocol

  lemma {:induction false} RunSnoc(s: Cluster, events: seq<Event>, e: Event)
    requires Run(s, events).Some? && Next(Run(s, events).value, e).Some?
    ensures Run(s, events + [e]) == Next(Run(s, events).value, e)
    decreases |events|
  {
    if events == [] {
      assert [e][1..] == [];
    } else {
      RunSnoc(Next(s, events[0]).value, events[1..], e);
      assert (events + [e])[1..] == events[1..] + [e];
    }
  }

  lemma ReachedStep(s: Cluster, e: Event)
    requires Reached(s) && Next(s, e).Some?
    ensures Reached(Next(s, e).value)
  {
    var openShift, events :| Run(Empty(openShift), events) == Some(s);
    RunSnoc(Empty(openShift), events, e);
    assert Run(Empty(openShift), events + [e]) == Next(s, e);
  }

  lemma {:induction false} ReachedCalls(s: Cluster, key: Key, faults: seq<bool>)
    requires Reached(s)
    ensures Reached(Calls(s, key, faults))
    decreases |faults|
  {
    if faults != [] {
      var t := Calls(s, key, faults[..|faults| - 1]);
      ReachedCalls(s, key, faults[..|faults| - 1]);
      if key in t.jobs {
        ReachedStep(t, Call(key, faults[|faults| - 1]));
      }
    }
  }

  /** Reconciling a platform that is deleted, or has its gateway disabled, begins this
      cleanup, so all that it does is within reach of the protocol. */
  lemma CleanupIsReached(s: Cluster, key: Key, plat: Platform, faults: seq<bool>)
    requires Reached(s) && key !in s.jobs && key in s.platforms && s.platforms[key] == plat
    requires if plat.deleting then HasFinalizer(plat.finalizers) else plat.gateway.None?
    ensures Reached(Calls(WithJob(s, key, plat, Look(Ingress)), key, faults))
  {
    ReachedStep(s, Begin(key));
    ReachedCalls(WithJob(s, key, plat, Look(Ingress)), key, faults);
  }

  /** One attempt, by an operator of its own. */
  method Attempt(start: Cluster, key: Key, plat: Platform, faulty: nat -> bool) returns (cluster: Cluster, ok: bool)
    requires key in start.platforms && start.platforms[key] == plat && plat.uid.key == key && key !in start.jobs
    requires Removable(start, key, plat.uid)
    ensures ok ==> NothingLeft(cluster, key, plat.uid) && cluster.platforms == Finalized(start, key, plat)
    ensures !ok ==> cluster.platforms == start.platforms && Removable(cluster, key, plat.uid)
    ensures OnlyOwnRemoved(start, cluster.(platforms := start.platforms), plat.uid)
    ensures FaultFree(faulty) ==> ok
  {
    var operator := new GatewayOperator(start, faulty);
    ok := operator.DeleteWorkflowGatewayResources(key, plat);
    cluster := operator.cluster;
    RemovableStays(start, cluster.(platforms := start.platforms), key, plat.uid);
  }

  /** The controller reconciles again after an error. After any number of failing
      attempts, one attempt without faults empties what is the platform's own. */
  method RetryCleanup(start: Cluster, key: Key, plat: Platform, attempts: seq<nat -> bool>)
    returns (cluster: Cluster)
    requires key in start.platforms && start.platforms[key] == plat && plat.uid.key == key && key !in start.jobs
    requires Removable(start, key, plat.uid)
    requires |attempts| > 0 && FaultFree(attempts[|attempts| - 1])
    ensures NothingLeft(cluster, key, plat.uid)
    ensures cluster.platforms == Finalized(start, key, plat)
    ensures OnlyOwnRemoved(start, cluster.(platforms := start.platforms), plat.uid)
  {
    cluster := start;
    for i := 0 to |attempts|
      invariant cluster.platforms == start.platforms && Removable(cluster, key, plat.uid)
      invariant OnlyOwnRemoved(start, cluster, plat.uid)
      invariant i < |attempts|
    {
      var after, ok := Attempt(cluster, key, plat, attempts[i]);
      RemovedAgain(start, cluster, after.(platforms := start.platforms), plat.uid);
      cluster := after;
      if ok {
        return;
      }
      assert after.(platforms := start.platforms) == after;
    }
  }
}
