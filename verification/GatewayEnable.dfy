/** The other branch of the reconcile: enabling the gateway. Undisturbed and without
    faults it ends with every object in place, under the finalizer. */
module GatewayEnable {
  import opened GatewayPlatform
  import opened GatewayProtocol
  import opened Kubernetes
  import opened Wrappers

  /** The reconcile of a platform goes on by itself for up to n calls. */
  function Undisturbed(s: Cluster, key: Key, n: nat): Cluster
    decreases n
  {
    if n == 0 || key !in s.jobs then s else Undisturbed(CallStep(s, key, false), key, n - 1)
  }

  /** The most calls that remain from a stage. */
  function Left(stage: Stage): nat {
    match stage
    case AddFinalizer => 14
    case Check(kind) => if kind.ServiceAccount? then 13 else if kind.Deployment? then 8 else 6
    case Put(kind) => if kind.ServiceAccount? then 12 else if kind.Deployment? then 7
                      else if kind.Service? then 5 else 1
    case CheckBinding => 11
    case DropDrifted => 10
    case PutBinding => 9
    case Look(kind) => if kind.Route? then 2 else 4
    case Drop(kind) => if kind.Route? then 1 else 3
    case _ => 0
  }

  /** The platform as the reconcile knows it is the live one, with its gateway enabled. */
  predicate UpToDate(s: Cluster, key: Key) {
    && key in s.jobs && key in s.platforms && s.jobs[key].plat == s.platforms[key]
    && !s.jobs[key].cleanup && s.platforms[key].uid.key == key
    && !s.platforms[key].deleting && s.platforms[key].gateway.Some?
    && (!s.jobs[key].stage.AddFinalizer? ==> HasFinalizer(s.platforms[key].finalizers))
  }

  /** The kinds that enabling insists on owning before it applies them. */
  predicate Guarded(kind: Kind) {
    kind.ServiceAccount? || kind.Deployment? || kind.Service?
  }

  /** Nothing foreign stands where the objects belong, and the role reference can be kept. */
  predicate Unobstructed(s: Cluster, key: Key, uid: Uid) {
    && (forall kind: Kind | Guarded(kind) ::
          ObjectOf(kind, key) in s.objects ==> OwnsObject(s, uid, ObjectOf(kind, key)))
    && (BindingName(key) in s.bindings ==>
          s.bindings[BindingName(key)].roleRef == GATEWAY_ROLE
          || PlatformOwner(uid) in s.bindings[BindingName(key)].owners)
  }

  /** The role reference no longer stands in the way. */
  predicate RoleSettled(s: Cluster, key: Key) {
    BindingName(key) in s.bindings ==> s.bindings[BindingName(key)].roleRef == GATEWAY_ROLE
  }

  /** What is already in place at a stage. */
  predicate InPlace(s: Cluster, key: Key, uid: Uid, left: nat) {
    && (left < 12 ==> OwnsObject(s, uid, ObjectOf(ServiceAccount, key)))
    && (left == 9 ==> RoleSettled(s, key))
    && (left < 9 ==> Bound(s, key))
    && (left < 7 ==> OwnsObject(s, uid, ObjectOf(Deployment, key)))
    && (left < 5 ==> OwnsObject(s, uid, ObjectOf(Service, key)))
  }

  predicate Bound(s: Cluster, key: Key) {
    BoundFor(s, BindingName(key), key) && s.bindings[BindingName(key)].roleRef == GATEWAY_ROLE
  }

  predicate IngressKind(kind: Kind) {
    kind.Ingress? || kind.Route?
  }

  /** The platform's own binding, to another role. */
  predicate Drifted(s: Cluster, key: Key, uid: Uid) {
    var b := BindingName(key);
    b in s.bindings && s.bindings[b].roleRef != GATEWAY_ROLE && PlatformOwner(uid) in s.bindings[b].owners
  }

  /** The last stages follow the gateway's ingress setting. */
  predicate OnTrack(s: Cluster, key: Key, job: Job) {
    && job.plat.gateway.Some?
    && match job.stage
       case Check(kind) => !IngressKind(kind)
       case Put(kind) => IngressKind(kind) ==> job.plat.gateway.value.ingressEnabled
                                               && kind == if s.openShift then Route else Ingress
       case Look(kind) => IngressKind(kind) && !job.plat.gateway.value.ingressEnabled
                          && (kind.Route? ==> s.openShift && !OwnsObject(s, job.plat.uid, ObjectOf(Ingress, key)))
       case Drop(kind) => IngressKind(kind) && !job.plat.gateway.value.ingressEnabled
                          && (kind.Route? ==> s.openShift && !OwnsObject(s, job.plat.uid, ObjectOf(Ingress, key)))
       case DropDrifted => Drifted(s, key, job.plat.uid)
       case LookBinding => false
       case DropBinding => false
       case RemoveFinalizer => false
       case _ => true
  }

  /** Everything a gateway needs, and an ingress exactly when it is enabled. */
  ghost predicate Enabled(s: Cluster, key: Key, uid: Uid, ingress: bool) {
    && Protected(s, uid)
    && InPlace(s, key, uid, 0)
    && (ingress ==> OwnsObject(s, uid, ObjectOf(if s.openShift then Route else Ingress, key)))
    && (!ingress ==> !OwnsObject(s, uid, ObjectOf(Ingress, key))
                     && (s.openShift ==> !OwnsObject(s, uid, ObjectOf(Route, key))))
  }

  ghost predicate Enabling(s: Cluster, key: Key) {
    && UpToDate(s, key)
    && var job := s.jobs[key];
       && OnTrack(s, key, job) && Unobstructed(s, key, job.plat.uid)
       && InPlace(s, key, job.plat.uid, Left(job.stage))
  }

  /** Nearer to the end, or at it with everything enabled. */
  ghost predicate GotOn(s: Cluster, t: Cluster, key: Key)
    requires key in s.jobs && s.jobs[key].plat.gateway.Some?
  {
    var uid := s.jobs[key].plat.uid;
    && t.openShift == s.openShift
    && (key in t.jobs ==> Enabling(t, key) && Left(t.jobs[key].stage) < Left(s.jobs[key].stage)
                          && t.jobs[key].plat.uid == uid && t.jobs[key].plat.gateway == s.jobs[key].plat.gateway)
    && (key !in t.jobs ==> Enabled(t, key, uid, s.jobs[key].plat.gateway.value.ingressEnabled))
  }

  lemma CallGetsOn(s: Cluster, key: Key)
    requires Enabling(s, key)
    ensures GotOn(s, CallStep(s, key, false), key)
  {
    match s.jobs[key].stage
    case AddFinalizer => AddFinalizerGetsOn(s, key);
    case Check(kind) =>
    case Put(kind) => PutGetsOn(s, key, kind);
    case Look(kind) => LookGetsOn(s, key, kind);
    case Drop(kind) => DropGetsOn(s, key, kind);
    case _ => BindingGetsOn(s, key);
  }

  lemma AddFinalizerGetsOn(s: Cluster, key: Key)
    requires Enabling(s, key) && s.jobs[key].stage.AddFinalizer?
    ensures GotOn(s, CallStep(s, key, false), key)
  {
  }

  /** Applying an object of a kind adds just that to what the platform owns. */
  lemma PutOwns(s: Cluster, key: Key, kind: Kind, uid: Uid)
    requires Unobstructed(s, key, uid)
    ensures var t := WithObject(s, ObjectOf(kind, key), uid);
            && Unobstructed(t, key, uid)
            && forall k: Kind ::
                 OwnsObject(t, uid, ObjectOf(k, key)) <==> k == kind || OwnsObject(s, uid, ObjectOf(k, key))
  {
  }

  lemma PutGetsOn(s: Cluster, key: Key, kind: Kind)
    requires Enabling(s, key) && s.jobs[key].stage == Put(kind)
    ensures GotOn(s, CallStep(s, key, false), key)
  {
    match kind
    case ServiceAccount => PutServiceAccountGetsOn(s, key);
    case Deployment => PutDeploymentGetsOn(s, key);
    case Service => PutServiceGetsOn(s, key);
    case _ => PutIngressGetsOn(s, key, kind);
  }

  lemma PutServiceAccountGetsOn(s: Cluster, key: Key)
    requires Enabling(s, key) && s.jobs[key].stage == Put(ServiceAccount)
    ensures GotOn(s, CallStep(s, key, false), key)
  {
    PutOwns(s, key, ServiceAccount, s.jobs[key].plat.uid);
  }

  lemma PutDeploymentGetsOn(s: Cluster, key: Key)
    requires Enabling(s, key) && s.jobs[key].stage == Put(Deployment)
    ensures GotOn(s, CallStep(s, key, false), key)
  {
    PutOwns(s, key, Deployment, s.jobs[key].plat.uid);
  }

  lemma PutServiceGetsOn(s: Cluster, key: Key)
    requires Enabling(s, key) && s.jobs[key].stage == Put(Service)
    ensures GotOn(s, CallStep(s, key, false), key)
  {
    if s.jobs[key].plat.gateway.value.ingressEnabled {
      PutServiceToIngress(s, key);
    } else {
      PutServiceToLook(s, key);
    }
  }

  lemma PutServiceToIngress(s: Cluster, key: Key)
    requires Enabling(s, key) && s.jobs[key].stage == Put(Service) && s.jobs[key].plat.gateway.value.ingressEnabled
    ensures GotOn(s, CallStep(s, key, false), key)
  {
    PutOwns(s, key, Service, s.jobs[key].plat.uid);
  }

  lemma PutServiceToLook(s: Cluster, key: Key)
    requires Enabling(s, key) && s.jobs[key].stage == Put(Service) && !s.jobs[key].plat.gateway.value.ingressEnabled
    ensures GotOn(s, CallStep(s, key, false), key)
  {
    PutOwns(s, key, Service, s.jobs[key].plat.uid);
  }

  lemma PutIngressGetsOn(s: Cluster, key: Key, kind: Kind)
    requires Enabling(s, key) && s.jobs[key].stage == Put(kind) && IngressKind(kind)
    ensures GotOn(s, CallStep(s, key, false), key)
  {
    PutOwns(s, key, kind, s.jobs[key].plat.uid);
  }

  lemma LookGetsOn(s: Cluster, key: Key, kind: Kind)
    requires Enabling(s, key) && s.jobs[key].stage == Look(kind)
    ensures GotOn(s, CallStep(s, key, false), key)
  {
    if kind.Ingress? {
      LookIngressGetsOn(s, key);
    } else {
      LookRouteGetsOn(s, key);
    }
  }

  lemma LookIngressGetsOn(s: Cluster, key: Key)
    requires Enabling(s, key) && s.jobs[key].stage == Look(Ingress)
    ensures GotOn(s, CallStep(s, key, false), key)
  {
    if OwnsObject(s, s.jobs[key].plat.uid, ObjectOf(Ingress, key)) {
      assert CallStep(s, key, false) == Goto(s, key, Drop(Ingress));
    } else {
      NoIngressGetsOn(s, key);
    }
  }

  lemma NoIngressGetsOn(s: Cluster, key: Key)
    requires Enabling(s, key) && s.jobs[key].stage == Look(Ingress)
    requires !OwnsObject(s, s.jobs[key].plat.uid, ObjectOf(Ingress, key))
    ensures GotOn(s, CallStep(s, key, false), key)
  {
    assert CallStep(s, key, false) == if s.openShift then Goto(s, key, Look(Route)) else End(s, key);
  }

  lemma LookRouteGetsOn(s: Cluster, key: Key)
    requires Enabling(s, key) && s.jobs[key].stage == Look(Route)
    ensures GotOn(s, CallStep(s, key, false), key)
  {
  }

  lemma DropGetsOn(s: Cluster, key: Key, kind: Kind)
    requires Enabling(s, key) && s.jobs[key].stage == Drop(kind)
    ensures GotOn(s, CallStep(s, key, false), key)
  {
  }

  lemma BindingGetsOn(s: Cluster, key: Key)
    requires Enabling(s, key)
    requires s.jobs[key].stage.CheckBinding? || s.jobs[key].stage.DropDrifted? || s.jobs[key].stage.PutBinding?
    ensures GotOn(s, CallStep(s, key, false), key)
  {
    if s.jobs[key].stage.PutBinding? {
      PutBindingGetsOn(s, key);
    }
  }

  lemma PutBindingGetsOn(s: Cluster, key: Key)
    requires Enabling(s, key) && s.jobs[key].stage.PutBinding?
    ensures GotOn(s, CallStep(s, key, false), key)
  {
  }

  /** The order of enabling: the Deployment is applied when its account and binding are in
      place, the Service after it, and the ingress last. */
  lemma AppliesInOrder(s: Cluster, key: Key)
    requires Enabling(s, key)
    ensures var uid, stage := s.jobs[key].plat.uid, s.jobs[key].stage;
            && (stage != AddFinalizer ==> Protected(s, uid))
            && (stage == PutBinding || stage == Put(Deployment) ==> OwnsObject(s, uid, ObjectOf(ServiceAccount, key)))
            && (stage == Put(Deployment) || stage == Put(Service) ==> Bound(s, key))
            && (stage == Put(Service) ==> OwnsObject(s, uid, ObjectOf(Deployment, key)))
            && (stage == Put(Ingress) || stage == Put(Route) ==> OwnsObject(s, uid, ObjectOf(Service, key)))
  {
  }

  lemma {:induction false} UndisturbedEnables(s: Cluster, key: Key, n: nat)
    requires Enabling(s, key) && Left(s.jobs[key].stage) <= n
    ensures var t := Undisturbed(s, key, n);
            key !in t.jobs && Enabled(t, key, s.jobs[key].plat.uid, s.jobs[key].plat.gateway.value.ingressEnabled)
    decreases n
  {
    CallGetsOn(s, key);
    var t := CallStep(s, key, false);
    if key in t.jobs {
      UndisturbedEnables(t, key, n - 1);
    }
  }

  // ---------- What stands in the way stays

  /** A foreign object of a kind whose check is still to come. */
  predicate BlockedAt(s: Cluster, key: Key, uid: Uid, kind: Kind, left: nat) {
    && Guarded(kind) && left >= Left(Check(kind))
    && ObjectOf(kind, key) in s.objects && !OwnsObject(s, uid, ObjectOf(kind, key))
  }

  /** A foreign binding to another role, still to be applied. */
  predicate BlockedBinding(s: Cluster, key: Key, uid: Uid, left: nat) {
    && left >= Left(PutBinding) && BindingName(key) in s.bindings
    && s.bindings[BindingName(key)].roleRef != GATEWAY_ROLE
    && PlatformOwner(uid) !in s.bindings[BindingName(key)].owners
  }

  predicate Blocked(s: Cluster, key: Key, uid: Uid, left: nat) {
    BlockedBinding(s, key, uid, left) || exists kind: Kind :: BlockedAt(s, key, uid, kind, left)
  }

  ghost predicate Going(s: Cluster, key: Key) {
    UpToDate(s, key) && OnTrack(s, key, s.jobs[key])
  }

  /** Nearer to the end, and still blocked. */
  ghost predicate StaysBlocked(s: Cluster, t: Cluster, key: Key)
    requires key in s.jobs
  {
    var uid := s.jobs[key].plat.uid;
    if key !in t.jobs then Blocked(t, key, uid, 14)
    else
      && Going(t, key) && Left(t.jobs[key].stage) < Left(s.jobs[key].stage)
      && t.jobs[key].plat.uid == uid && Blocked(t, key, uid, Left(t.jobs[key].stage))
  }

  lemma CallStaysBlocked(s: Cluster, key: Key)
    requires Going(s, key) && Blocked(s, key, s.jobs[key].plat.uid, Left(s.jobs[key].stage))
    ensures StaysBlocked(s, CallStep(s, key, false), key)
  {
    var uid, left := s.jobs[key].plat.uid, Left(s.jobs[key].stage);
    if BlockedBinding(s, key, uid, left) {
      BindingStaysBlocked(s, key);
    } else {
      var kind: Kind :| BlockedAt(s, key, uid, kind, left);
      ObjectStaysBlocked(s, key, kind);
    }
  }

  lemma BindingStaysBlocked(s: Cluster, key: Key)
    requires Going(s, key) && BlockedBinding(s, key, s.jobs[key].plat.uid, Left(s.jobs[key].stage))
    ensures StaysBlocked(s, CallStep(s, key, false), key)
  {
    var t := CallStep(s, key, false);
    KeepsGoing(s, key);
    BindingStays(s, key);
    assert BlockedBinding(t, key, s.jobs[key].plat.uid, if key in t.jobs then Left(t.jobs[key].stage) else 14);
  }

  lemma BindingStays(s: Cluster, key: Key)
    requires Going(s, key) && BlockedBinding(s, key, s.jobs[key].plat.uid, Left(s.jobs[key].stage))
    ensures var t := CallStep(s, key, false);
            t.bindings == s.bindings && (key in t.jobs ==> Left(t.jobs[key].stage) >= Left(PutBinding))
  {
    match s.jobs[key].stage
    case Check(_) =>
    case Put(_) =>
    case _ =>
  }

  /** Over, or nearer to the end with the same platform. */
  predicate StillGoing(s: Cluster, t: Cluster, key: Key)
    requires key in s.jobs
  {
    key in t.jobs ==>
      && UpToDate(t, key) && OnTrack(t, key, t.jobs[key])
      && Left(t.jobs[key].stage) < Left(s.jobs[key].stage) && t.jobs[key].plat.uid == s.jobs[key].plat.uid
  }

  predicate BindingStage(stage: Stage) {
    stage.CheckBinding? || stage.DropDrifted? || stage.PutBinding?
  }

  /** While a guarded kind is still to be checked, a reconcile only nears that check. */
  lemma KeepsGoing(s: Cluster, key: Key)
    requires Going(s, key) && Left(s.jobs[key].stage) >= Left(Check(Service))
    ensures StillGoing(s, CallStep(s, key, false), key)
  {
    match s.jobs[key].stage
    case AddFinalizer => AddFinalizerKeepsGoing(s, key);
    case Check(kind) => CheckKeepsGoing(s, key, kind);
    case Put(kind) => PutKeepsGoing(s, key, kind);
    case _ => BindingKeepsGoing(s, key);
  }

  lemma AddFinalizerKeepsGoing(s: Cluster, key: Key)
    requires Going(s, key) && s.jobs[key].stage.AddFinalizer?
    ensures StillGoing(s, CallStep(s, key, false), key)
  {
  }

  lemma CheckKeepsGoing(s: Cluster, key: Key, kind: Kind)
    requires Going(s, key) && s.jobs[key].stage == Check(kind)
    ensures StillGoing(s, CallStep(s, key, false), key)
  {
    assert CallStep(s, key, false) == CheckCall(s, key, kind, false);
  }

  lemma PutKeepsGoing(s: Cluster, key: Key, kind: Kind)
    requires Going(s, key) && s.jobs[key].stage == Put(kind) && (kind.ServiceAccount? || kind.Deployment?)
    ensures StillGoing(s, CallStep(s, key, false), key)
  {
    assert CallStep(s, key, false) == PutCall(s, key, kind);
  }

  lemma BindingKeepsGoing(s: Cluster, key: Key)
    requires Going(s, key) && BindingStage(s.jobs[key].stage)
    ensures StillGoing(s, CallStep(s, key, false), key)
  {
  }

  /** Only applying a kind, and dropping it, changes its object. */
  lemma OtherObjectsStay(s: Cluster, key: Key, o: ObjectKey)
    requires Going(s, key) && o in s.objects
    requires s.jobs[key].stage != Put(o.kind) && !s.jobs[key].stage.Drop?
    ensures o in CallStep(s, key, false).objects && CallStep(s, key, false).objects[o] == s.objects[o]
  {
    match s.jobs[key].stage
    case Put(kind) => PutLeavesOthers(s, key, kind, o);
    case _ => NoPutNoChange(s, key);
  }

  lemma PutLeavesOthers(s: Cluster, key: Key, kind: Kind, o: ObjectKey)
    requires Going(s, key) && s.jobs[key].stage == Put(kind) && o in s.objects && o.kind != kind
    ensures o in CallStep(s, key, false).objects && CallStep(s, key, false).objects[o] == s.objects[o]
  {
    assert CallStep(s, key, false) == PutCall(s, key, kind);
  }

  lemma NoPutNoChange(s: Cluster, key: Key)
    requires Going(s, key) && !s.jobs[key].stage.Put? && !s.jobs[key].stage.Drop?
    ensures CallStep(s, key, false).objects == s.objects
  {
  }

  /** The check of a kind ends the reconcile at a foreign object, and is not passed over. */
  lemma CheckNotPassed(s: Cluster, key: Key, kind: Kind)
    requires Going(s, key) && BlockedAt(s, key, s.jobs[key].plat.uid, kind, Left(s.jobs[key].stage))
    ensures key in CallStep(s, key, false).jobs ==> Left(CallStep(s, key, false).jobs[key].stage) >= Left(Check(kind))
  {
    match s.jobs[key].stage
    case Check(_) =>
    case Put(_) =>
    case _ =>
  }

  lemma ObjectStaysBlocked(s: Cluster, key: Key, kind: Kind)
    requires Going(s, key) && BlockedAt(s, key, s.jobs[key].plat.uid, kind, Left(s.jobs[key].stage))
    ensures StaysBlocked(s, CallStep(s, key, false), key)
  {
    var t := CallStep(s, key, false);
    KeepsGoing(s, key);
    OtherObjectsStay(s, key, ObjectOf(kind, key));
    CheckNotPassed(s, key, kind);
    assert BlockedAt(t, key, s.jobs[key].plat.uid, kind, if key in t.jobs then Left(t.jobs[key].stage) else 14);
  }

  lemma {:induction false} UndisturbedBlocked(s: Cluster, key: Key, n: nat)
    requires Going(s, key) && Blocked(s, key, s.jobs[key].plat.uid, Left(s.jobs[key].stage))
    requires Left(s.jobs[key].stage) <= n
    ensures key !in Undisturbed(s, key, n).jobs && Blocked(Undisturbed(s, key, n), key, s.jobs[key].plat.uid, 14)
    decreases n
  {
    CallStaysBlocked(s, key);
    var t := CallStep(s, key, false);
    if key in t.jobs {
      UndisturbedBlocked(t, key, n - 1);
    } else {
      assert Undisturbed(t, key, n - 1) == t;
    }
  }

  lemma BegunBlocked(s: Cluster, key: Key)
    requires key !in s.jobs && key in s.platforms && s.platforms[key].uid.key == key
    requires !s.platforms[key].deleting && s.platforms[key].gateway.Some?
    requires Blocked(s, key, s.platforms[key].uid, 14)
    ensures var t := BeginStep(s, key).value;
            && Going(t, key) && t.jobs[key].plat == s.platforms[key]
            && Blocked(t, key, s.platforms[key].uid, Left(t.jobs[key].stage))
  {
    var uid, t := s.platforms[key].uid, BeginStep(s, key).value;
    var left := Left(t.jobs[key].stage);
    if BlockedBinding(s, key, uid, 14) {
      assert BlockedBinding(t, key, uid, left);
    } else {
      var kind: Kind :| BlockedAt(s, key, uid, kind, 14);
      assert BlockedAt(t, key, uid, kind, left);
    }
  }

  lemma BlockedIff(s: Cluster, key: Key, uid: Uid)
    ensures Blocked(s, key, uid, 14) <==> !Unobstructed(s, key, uid)
  {
    if !Unobstructed(s, key, uid) && !BlockedBinding(s, key, uid, 14) {
      var kind: Kind :| Guarded(kind) && ObjectOf(kind, key) in s.objects && !OwnsObject(s, uid, ObjectOf(kind, key));
      assert BlockedAt(s, key, uid, kind, 14);
    }
  }

  // ---------- Whether a foreign object is taken over

  /** The check of a guarded kind is up, and the object will be built. */
  predicate Checking(s: Cluster, key: Key, kind: Kind) {
    && key in s.jobs && s.jobs[key].stage == Check(kind) && Guarded(kind)
    && (kind.Deployment? ==> s.jobs[key].plat.gateway.Some?)
  }

  /** A foreign object that the check meets is taken over by the next call exactly when the
      check fails: a failing Get is not told apart from a missing object. */
  lemma ForeignTakenOverIff(s: Cluster, key: Key, kind: Kind, fault: bool)
    requires Checking(s, key, kind)
    requires ObjectOf(kind, key) in s.objects && !OwnsObject(s, s.jobs[key].plat.uid, ObjectOf(kind, key))
    ensures var t, o, uid := CallStep(s, key, fault), ObjectOf(kind, key), s.jobs[key].plat.uid;
            && t.objects == s.objects && (key in t.jobs <==> fault)
            && (fault ==> var u := CallStep(t, key, false);
                          o in u.objects && u.objects[o] == s.objects[o] + {PlatformOwner(uid)})
  {
    var t := CallStep(s, key, fault);
    assert t == CheckCall(s, key, kind, fault);
    if fault {
      assert CallStep(t, key, false) == PutCall(t, key, kind);
      CallEffect(t, key, false);
    }
  }

  /** And one that somebody creates between the check and the apply is taken over too. */
  lemma LateForeignTakenOver(s: Cluster, key: Key, kind: Kind, ids: set<nat>)
    requires Checking(s, key, kind) && ObjectOf(kind, key) !in s.objects
    ensures var created := CreateForeign(ObjectOf(kind, key), ids);
            var t := Run(s, [Call(key, false)] + ([created] + ([Call(key, false)] + [])));
            && t.Some? && ObjectOf(kind, key) in t.value.objects
            && t.value.objects[ObjectOf(kind, key)]
               == (set i | i in ids :: OtherOwner(i)) + {PlatformOwner(s.jobs[key].plat.uid)}
  {
    var created := CreateForeign(ObjectOf(kind, key), ids);
    var s1 := Next(s, Call(key, false)).value;
    assert s1 == CheckCall(s, key, kind, false);
    var s2 := Next(s1, created).value;
    assert CallStep(s2, key, false) == PutCall(s2, key, kind);
    CallEffect(s2, key, false);
    RunFirst(s, Call(key, false), [created] + ([Call(key, false)] + []));
    RunFirst(s1, created, [Call(key, false)] + []);
    RunFirst(s2, Call(key, false), []);
  }

  // ---------- What enabling leaves alone

  /** An enabling reconcile past the finalizer. */
  predicate Applying(job: Job) {
    && !job.cleanup
    && match job.stage
       case Check(_) => true
       case Put(_) => true
       case Look(kind) => IngressKind(kind)
       case Drop(kind) => IngressKind(kind)
       case stage => BindingStage(stage)
  }

  lemma ApplyingStays(s: Cluster, key: Key)
    requires key in s.jobs && Applying(s.jobs[key])
    ensures var t := CallStep(s, key, false);
            && t.platforms == s.platforms
            && (key in t.jobs ==> Applying(t.jobs[key]) && t.jobs[key].plat == s.jobs[key].plat)
  {
    CallWritesFinalizers(s, key, false);
    match s.jobs[key].stage
    case Put(kind) => ApplyingPut(s, key, kind);
    case Look(kind) => ApplyingLook(s, key, kind);
    case Drop(kind) => ApplyingDrop(s, key, kind);
    case _ => ApplyingOther(s, key);
  }

  predicate StillApplying(s: Cluster, t: Cluster, key: Key)
    requires key in s.jobs
  {
    key in t.jobs ==> Applying(t.jobs[key]) && t.jobs[key].plat == s.jobs[key].plat
  }

  lemma ApplyingPut(s: Cluster, key: Key, kind: Kind)
    requires key in s.jobs && Applying(s.jobs[key]) && s.jobs[key].stage == Put(kind)
    ensures StillApplying(s, CallStep(s, key, false), key)
  {
    assert CallStep(s, key, false) == PutCall(s, key, kind);
  }

  lemma ApplyingLook(s: Cluster, key: Key, kind: Kind)
    requires key in s.jobs && Applying(s.jobs[key]) && s.jobs[key].stage == Look(kind)
    ensures StillApplying(s, CallStep(s, key, false), key)
  {
    assert CallStep(s, key, false) == LookCall(s, key, kind);
  }

  lemma ApplyingDrop(s: Cluster, key: Key, kind: Kind)
    requires key in s.jobs && Applying(s.jobs[key]) && s.jobs[key].stage == Drop(kind)
    ensures StillApplying(s, CallStep(s, key, false), key)
  {
    assert CallStep(s, key, false) == AfterDrop(WithoutObject(s, ObjectOf(kind, key)), key, kind);
  }

  lemma ApplyingOther(s: Cluster, key: Key)
    requires key in s.jobs && Applying(s.jobs[key])
    requires s.jobs[key].stage.Check? || BindingStage(s.jobs[key].stage)
    ensures StillApplying(s, CallStep(s, key, false), key)
  {
    match s.jobs[key].stage
    case Check(kind) => assert CallStep(s, key, false) == CheckCall(s, key, kind, false);
    case CheckBinding => assert CallStep(s, key, false) == CheckBindingCall(s, key);
    case DropDrifted => assert CallStep(s, key, false) == DropDriftedCall(s, key);
    case PutBinding => assert CallStep(s, key, false) == PutBindingCall(s, key);
  }

  /** The owners of the guarded objects are those before, with the platform or without. */
  predicate GainsAt(s: Cluster, t: Cluster, key: Key, uid: Uid, kind: Kind) {
    var o := ObjectOf(kind, key);
    && (o in s.objects ==> o in t.objects)
    && OwnersOf(s, o) <= OwnersOf(t, o) <= OwnersOf(s, o) + {PlatformOwner(uid)}
  }

  lemma CallGains(s: Cluster, key: Key, kind: Kind)
    requires key in s.jobs && (Applying(s.jobs[key]) || s.jobs[key].stage.AddFinalizer?) && Guarded(kind)
    ensures GainsAt(s, CallStep(s, key, false), key, s.jobs[key].plat.uid, kind)
  {
    CallEffect(s, key, false);
    EffectGains(s, key, kind);
  }

  lemma EffectGains(s: Cluster, key: Key, kind: Kind)
    requires key in s.jobs && (Applying(s.jobs[key]) || s.jobs[key].stage.AddFinalizer?) && Guarded(kind)
    ensures GainsAt(s, Effect(s, key, false), key, s.jobs[key].plat.uid, kind)
  {
  }

  lemma {:induction false} UndisturbedApplies(s: Cluster, key: Key, n: nat, uid: Uid, kind: Kind)
    requires key in s.jobs ==> Applying(s.jobs[key]) && s.jobs[key].plat.uid == uid
    requires Guarded(kind)
    ensures var t := Undisturbed(s, key, n);
            TouchesOnly(s, t, key) && t.platforms == s.platforms && GainsAt(s, t, key, uid, kind)
    decreases n
  {
    if n == 0 || key !in s.jobs {
      TouchesNothing(s, key);
    } else {
      var t := CallStep(s, key, false);
      ApplyingStays(s, key);
      CallTouchesOnly(s, key, false);
      CallGains(s, key, kind);
      UndisturbedApplies(t, key, n - 1, uid, kind);
      TouchesOnlyAgain(s, t, Undisturbed(t, key, n - 1), key);
    }
  }

  /** The finalizers of an enabled platform: as they were, the gateway's at the end if it
      was missing. */
  function WithGateway(finalizers: seq<Finalizer>): seq<Finalizer> {
    if GatewayCleanup in finalizers then finalizers else finalizers + [GatewayCleanup]
  }

  /** What enabling changes at most: its platform's finalizers, and what has its names. */
  ghost predicate EnablesOnly(s: Cluster, t: Cluster, key: Key)
    requires key in s.platforms
  {
    && TouchesOnly(s, t, key)
    && t.platforms == s.platforms[key := s.platforms[key].(finalizers := WithGateway(s.platforms[key].finalizers))]
    && forall kind: Kind | Guarded(kind) :: GainsAt(s, t, key, s.platforms[key].uid, kind)
  }

  lemma FirstCall(s: Cluster, key: Key)
    requires key in s.platforms && key in s.jobs && s.jobs[key] == Job(s.platforms[key], false, AddFinalizer)
    requires !s.platforms[key].deleting && !HasFinalizer(s.platforms[key].finalizers)
    ensures var t := CallStep(s, key, false);
            && t.platforms ==
               s.platforms[key := s.platforms[key].(finalizers := WithGateway(s.platforms[key].finalizers))]
            && key in t.jobs && Applying(t.jobs[key]) && t.jobs[key].plat.uid == s.platforms[key].uid
  {
    CallWritesFinalizers(s, key, false);
  }

  lemma ReconcileEnablesOnly(s: Cluster, key: Key, n: nat)
    requires key !in s.jobs && key in s.platforms && !s.platforms[key].deleting && s.platforms[key].gateway.Some?
    ensures EnablesOnly(s, Undisturbed(BeginStep(s, key).value, key, n + 1), key)
  {
    var begun := BeginStep(s, key).value;
    var uid, t := s.platforms[key].uid, Undisturbed(begun, key, n + 1);
    TouchesNothing(s, key);
    assert TouchesOnly(s, begun, key);
    forall kind: Kind | Guarded(kind)
      ensures GainsAt(s, t, key, uid, kind) && TouchesOnly(begun, t, key)
      ensures t.platforms
              == s.platforms[key := s.platforms[key].(finalizers := WithGateway(s.platforms[key].finalizers))]
    {
      BegunEnablesOnly(begun, key, n, kind);
    }
    assert Guarded(Service);
    TouchesOnlyAgain(s, begun, t, key);
  }

  lemma BegunEnablesOnly(begun: Cluster, key: Key, n: nat, kind: Kind)
    requires key in begun.platforms && !begun.platforms[key].deleting && Guarded(kind) && key in begun.jobs
    requires var p := begun.platforms[key];
             begun.jobs[key]
             == Job(p, false, if HasFinalizer(p.finalizers) then Check(ServiceAccount) else AddFinalizer)
    ensures var t, p := Undisturbed(begun, key, n + 1), begun.platforms[key];
            && TouchesOnly(begun, t, key) && GainsAt(begun, t, key, p.uid, kind)
            && t.platforms == begun.platforms[key := p.(finalizers := WithGateway(p.finalizers))]
  {
    var p := begun.platforms[key];
    if HasFinalizer(p.finalizers) {
      UndisturbedApplies(begun, key, n + 1, p.uid, kind);
    } else {
      var first := CallStep(begun, key, false);
      FirstCall(begun, key);
      CallTouchesOnly(begun, key, false);
      CallGains(begun, key, kind);
      UndisturbedApplies(first, key, n, p.uid, kind);
      TouchesOnlyAgain(begun, first, Undisturbed(first, key, n), key);
    }
  }

  /** A reconcile of an enabled gateway, left alone, puts all of it in place, the finalizer
      first, exactly when nothing foreign is in the way. Either way it leaves the platform's
      other finalizers, other owners, and everything of other platforms as they are. */
  lemma ReconcileEnables(s: Cluster, key: Key)
    requires Reached(s) && key !in s.jobs && key in s.platforms
    requires !s.platforms[key].deleting && s.platforms[key].gateway.Some?
    ensures var t := Undisturbed(BeginStep(s, key).value, key, 14);
            var uid := s.platforms[key].uid;
            && key !in t.jobs
            && (Enabled(t, key, uid, s.platforms[key].gateway.value.ingressEnabled) <==> Unobstructed(s, key, uid))
            && EnablesOnly(s, t, key)
  {
    ReachedInv(s);
    ReconcileEnablesOnly(s, key, 13);
    var uid, begun := s.platforms[key].uid, BeginStep(s, key).value;
    BlockedIff(s, key, uid);
    if Unobstructed(s, key, uid) {
      UndisturbedEnables(begun, key, 14);
    } else {
      BegunBlocked(s, key);
      UndisturbedBlocked(begun, key, 14);
      BlockedIff(Undisturbed(begun, key, 14), key, uid);
    }
  }
}
