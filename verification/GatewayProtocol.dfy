/** The gateway's finalizer lifecycle: reconciles of any number of platforms as sequences
    of API calls, each of which may fail, interleaved with each other and with users. */
module GatewayProtocol {
  import opened GatewayPlatform
  import opened Kubernetes
  import opened Wrappers

  datatype Stage =
    | AddFinalizer
    | Check(kind: Kind)   // Get before an Apply
    | Put(kind: Kind)     // Apply
    | CheckBinding
    | DropDrifted
    | PutBinding
    | Look(kind: Kind)    // Get before a Delete
    | Drop(kind: Kind)    // Delete
    | LookBinding
    | DropBinding
    | RemoveFinalizer

  /** A reconcile in flight: the platform as last read, and the call it makes next. */
  datatype Job = Job(plat: Platform, cleanup: bool, stage: Stage)

  datatype Cluster = Cluster(
    platforms: map<Key, Platform>,
    objects: map<ObjectKey, set<Owner>>,
    bindings: map<string, Binding>,
    jobs: map<Key, Job>,
    serial: nat,
    openShift: bool)

  function Empty(openShift: bool): Cluster {
    Cluster(map[], map[], map[], map[], 0, openShift)
  }

  datatype Event =
    | CreatePlatform(key: Key, finalizers: seq<Finalizer>, gateway: Option<Gateway>)
    | SetGateway(key: Key, gateway: Option<Gateway>)
    | DeletePlatform(key: Key)
    | SetOtherFinalizers(key: Key, finalizers: seq<Finalizer>)
    | CreateForeign(target: ObjectKey, ids: set<nat>)
    | DeleteObject(target: ObjectKey)
    | CreateForeignBinding(binding: string, platform: Key, owners: set<Owner>, roleRef: string)
    | DeleteBinding(binding: string)
    | Begin(key: Key)
    | Call(key: Key, fault: bool)   // the next API call of the reconcile
    | Abort(key: Key)

  // ---------- The API server

  /** An object under deletion takes no new finalizers, and goes with its last one. */
  function SetFinalizers(s: Cluster, key: Key, finalizers: seq<Finalizer>): Option<Cluster> {
    if key !in s.platforms then None
    else
      var p := s.platforms[key];
      if p.deleting && exists f | f in finalizers :: f !in p.finalizers then None
      else if p.deleting && finalizers == [] then Some(s.(platforms := s.platforms - {key}))
      else Some(s.(platforms := s.platforms[key := p.(finalizers := finalizers)]))
  }

  function WithoutObject(s: Cluster, o: ObjectKey): Cluster {
    s.(objects := s.objects - {o})
  }

  /** Server-side apply adds the applier to the owners. */
  function WithObject(s: Cluster, o: ObjectKey, uid: Uid): Cluster {
    s.(objects := s.objects[o := OwnersOf(s, o) + {PlatformOwner(uid)}])
  }

  function WithoutBinding(s: Cluster, b: string): Cluster {
    s.(bindings := s.bindings - {b})
  }

  function WithBinding(s: Cluster, key: Key): Cluster {
    var b := BindingName(key);
    var owners := if b in s.bindings then s.bindings[b].owners else {};
    s.(bindings := s.bindings[b := Binding(key, true, owners, GATEWAY_ROLE)])
  }

  function OwnersOf(s: Cluster, o: ObjectKey): set<Owner> {
    if o in s.objects then s.objects[o] else {}
  }

  /** A binding taken over keeps its owners; an object applied keeps its own. */
  lemma WritesSpelled(s: Cluster, key: Key, o: ObjectKey, uid: Uid)
    ensures var b := BindingName(key);
            && WithBinding(s, key) == s.(bindings := s.bindings[b :=
                 Binding(key, true, if b in s.bindings then s.bindings[b].owners else {},
                         "logic-operator-workflow-gateway")])
            && WithObject(s, o, uid) == s.(objects := s.objects[o :=
                 (if o in s.objects then s.objects[o] else {}) + {PlatformOwner(uid)}])
  {
  }

  // ---------- Control flow of a reconcile

  function End(s: Cluster, key: Key): Cluster {
    s.(jobs := s.jobs - {key})
  }

  function Goto(s: Cluster, key: Key, stage: Stage): Cluster
    requires key in s.jobs
  {
    s.(jobs := s.jobs[key := s.jobs[key].(stage := stage)])
  }

  function BeginStep(s: Cluster, key: Key): Option<Cluster> {
    if key in s.jobs then None
    else if key !in s.platforms then Some(s)
    else
      var p := s.platforms[key];
      if p.deleting && !HasFinalizer(p.finalizers) then Some(s)
      else
        var cleanup := p.deleting || p.gateway.None?;
        var stage := if cleanup then Look(Ingress)
                     else if HasFinalizer(p.finalizers) then Check(ServiceAccount) else AddFinalizer;
        Some(s.(jobs := s.jobs[key := Job(p, cleanup, stage)]))
  }

  /** A reconcile cleans up when the platform is being deleted under the finalizer, or has
      no gateway; it does nothing when it is being deleted without; otherwise it enables. */
  lemma BeginMeaning(s: Cluster, key: Key)
    requires key !in s.jobs && key in s.platforms
    ensures var p := s.platforms[key];
            var protected := GatewayCleanup in p.finalizers;
            BeginStep(s, key)
            == if p.deleting && !protected then Some(s)
               else if p.deleting || p.gateway.None? then Some(s.(jobs := s.jobs[key := Job(p, true, Look(Ingress))]))
               else Some(s.(jobs := s.jobs[key :=
                                Job(p, false, if protected then Check(ServiceAccount) else AddFinalizer)]))
  {
  }

  /** After the Ingress, and on OpenShift the Route, are out of the way. */
  function AfterIngress(s: Cluster, key: Key): Cluster
    requires key in s.jobs
  {
    if s.jobs[key].cleanup then Goto(s, key, Look(Service)) else End(s, key)
  }

  function AfterDrop(s: Cluster, key: Key, kind: Kind): Cluster
    requires key in s.jobs
  {
    match kind
    case Ingress => if s.openShift then Goto(s, key, Look(Route)) else AfterIngress(s, key)
    case Route => AfterIngress(s, key)
    case Service => Goto(s, key, Look(Deployment))
    case Deployment => Goto(s, key, LookBinding)
    case ServiceAccount => Goto(s, key, RemoveFinalizer)
  }

  function AfterPut(s: Cluster, key: Key, kind: Kind): Cluster
    requires key in s.jobs
  {
    match kind
    case ServiceAccount => Goto(s, key, CheckBinding)
    case Deployment => Goto(s, key, Check(Service))
    case Service =>
      var gateway := s.jobs[key].plat.gateway;
      if gateway.Some? && gateway.value.ingressEnabled
      then Goto(s, key, Put(if s.openShift then Route else Ingress)) else Goto(s, key, Look(Ingress))
    case _ => End(s, key)
  }

  // ---------- The calls

  function AddFinalizerCall(s: Cluster, key: Key): Cluster
    requires key in s.jobs
  {
    match SetFinalizers(s, key, s.jobs[key].plat.finalizers + [GatewayCleanup])
    case None => End(s, key)
    case Some(t) => t.(jobs := t.jobs[key := t.jobs[key].(plat := t.platforms[key], stage := Check(ServiceAccount))])
  }

  /** A failing Get is not told apart from a missing object here. */
  function CheckCall(s: Cluster, key: Key, kind: Kind, fault: bool): Cluster
    requires key in s.jobs
  {
    var o := ObjectOf(kind, key);
    if !fault && o in s.objects && PlatformOwner(s.jobs[key].plat.uid) !in s.objects[o] then End(s, key)
    else Goto(s, key, Put(kind))
  }

  /** The Deployment is built from the gateway spec, which the platform read after
      adding the finalizer may lack; the reconcile then panics. */
  function PutCall(s: Cluster, key: Key, kind: Kind): Cluster
    requires key in s.jobs
  {
    if kind.Deployment? && s.jobs[key].plat.gateway.None? then End(s, key)
    else AfterPut(WithObject(s, ObjectOf(kind, key), s.jobs[key].plat.uid), key, kind)
  }

  function CheckBindingCall(s: Cluster, key: Key): Cluster
    requires key in s.jobs
  {
    var b := BindingName(key);
    if b in s.bindings && PlatformOwner(s.jobs[key].plat.uid) in s.bindings[b].owners
       && s.bindings[b].roleRef != GATEWAY_ROLE
    then Goto(s, key, DropDrifted) else Goto(s, key, PutBinding)
  }

  /** Here a binding that has gone in the meantime is an error. */
  function DropDriftedCall(s: Cluster, key: Key): Cluster
    requires key in s.jobs
  {
    if BindingName(key) !in s.bindings then End(s, key)
    else Goto(WithoutBinding(s, BindingName(key)), key, PutBinding)
  }

  /** Applying takes the labels over by force; the role reference cannot be changed. */
  function PutBindingCall(s: Cluster, key: Key): Cluster
    requires key in s.jobs
  {
    var b := BindingName(key);
    if b in s.bindings && s.bindings[b].roleRef != GATEWAY_ROLE then End(s, key)
    else Goto(WithBinding(s, key), key, Check(Deployment))
  }

  function LookCall(s: Cluster, key: Key, kind: Kind): Cluster
    requires key in s.jobs
  {
    var o := ObjectOf(kind, key);
    if o !in s.objects then AfterDrop(s, key, kind)
    else if PlatformOwner(s.jobs[key].plat.uid) in s.objects[o] then Goto(s, key, Drop(kind))
    else if kind.Ingress? || kind.Route? then AfterDrop(s, key, kind)
    else End(s, key)
  }

  function LookBindingCall(s: Cluster, key: Key): Cluster
    requires key in s.jobs
  {
    var b := BindingName(key);
    if b !in s.bindings then Goto(s, key, Look(ServiceAccount))
    else if s.bindings[b].platform == key then Goto(s, key, DropBinding)
    else End(s, key)
  }

  function RemoveFinalizerCall(s: Cluster, key: Key): Cluster
    requires key in s.jobs
  {
    var p := s.jobs[key].plat;
    if !HasFinalizer(p.finalizers) then End(s, key)
    else match SetFinalizers(s, key, Without(p.finalizers))
         case None => End(s, key)
         case Some(t) => End(t, key)
  }

  function CallStep(s: Cluster, key: Key, fault: bool): Cluster
    requires key in s.jobs
  {
    var stage := s.jobs[key].stage;
    if fault && !stage.Check? then End(s, key)
    else match stage
         case AddFinalizer => AddFinalizerCall(s, key)
         case Check(kind) => CheckCall(s, key, kind, fault)
         case Put(kind) => PutCall(s, key, kind)
         case CheckBinding => CheckBindingCall(s, key)
         case DropDrifted => DropDriftedCall(s, key)
         case PutBinding => PutBindingCall(s, key)
         case Look(kind) => LookCall(s, key, kind)
         case Drop(kind) => AfterDrop(WithoutObject(s, ObjectOf(kind, key)), key, kind)
         case LookBinding => LookBindingCall(s, key)
         case DropBinding => Goto(WithoutBinding(s, BindingName(key)), key, Look(ServiceAccount))
         case RemoveFinalizer => RemoveFinalizerCall(s, key)
  }

  // ---------- Users

  function UserStep(s: Cluster, e: Event): Option<Cluster> {
    match e
    case CreatePlatform(key, finalizers, gateway) =>
      if key in s.platforms then None
      else Some(s.(platforms := s.platforms[key := Platform(Uid(key, s.serial), false, finalizers, gateway)],
                   serial := s.serial + 1))
    case SetGateway(key, gateway) =>
      if key in s.platforms then
        Some(s.(platforms := s.platforms[key := s.platforms[key].(gateway := gateway)]))
      else None
    case DeletePlatform(key) =>
      if key !in s.platforms then None
      else if s.platforms[key].finalizers == [] then Some(s.(platforms := s.platforms - {key}))
      else Some(s.(platforms := s.platforms[key := s.platforms[key].(deleting := true)]))
    case SetOtherFinalizers(key, finalizers) =>
      if key in s.platforms && (HasFinalizer(finalizers) <==> HasFinalizer(s.platforms[key].finalizers))
      then SetFinalizers(s, key, finalizers) else None
    case CreateForeign(o, ids) =>
      if o in s.objects then None else Some(s.(objects := s.objects[o := set i | i in ids :: OtherOwner(i)]))
    case DeleteObject(o) => Some(WithoutObject(s, o))
    case CreateForeignBinding(b, platform, owners, roleRef) =>
      if b in s.bindings then None else Some(s.(bindings := s.bindings[b := Binding(platform, false, owners, roleRef)]))
    case DeleteBinding(b) => Some(WithoutBinding(s, b))
    case _ => None
  }

  function Next(s: Cluster, e: Event): Option<Cluster> {
    match e
    case Begin(key) => BeginStep(s, key)
    case Call(key, fault) => if key in s.jobs then Some(CallStep(s, key, fault)) else None
    case Abort(key) => Some(End(s, key))
    case _ => UserStep(s, e)
  }

  function Run(s: Cluster, events: seq<Event>): Option<Cluster>
    decreases |events|
  {
    if events == [] then Some(s)
    else match Next(s, events[0])
         case None => None
         case Some(t) => Run(t, events[1..])
  }

  ghost predicate Reached(s: Cluster) {
    exists openShift, events :: Run(Empty(openShift), events) == Some(s)
  }

  // ---------- The invariant

  /** This incarnation of a platform exists and carries the gateway finalizer. */
  predicate Protected(s: Cluster, uid: Uid) {
    uid.key in s.platforms && s.platforms[uid.key].uid == uid && HasFinalizer(s.platforms[uid.key].finalizers)
  }

  ghost predicate PlatformsNumbered(s: Cluster) {
    forall k | k in s.platforms :: s.platforms[k].uid.key == k && s.platforms[k].uid.serial < s.serial
  }

  predicate OwnsObject(s: Cluster, uid: Uid, o: ObjectKey) {
    o in s.objects && PlatformOwner(uid) in s.objects[o]
  }

  ghost predicate ObjectsProtected(s: Cluster) {
    forall o, uid | OwnsObject(s, uid, o) ::
      Protected(s, uid) && o == ObjectOf(o.kind, uid.key) && (o.kind.Route? ==> s.openShift)
  }

  predicate BoundFor(s: Cluster, b: string, key: Key) {
    b in s.bindings && s.bindings[b].byOperator && s.bindings[b].platform == key
  }

  ghost predicate BindingsProtected(s: Cluster) {
    forall b, key | BoundFor(s, b, key) ::
      b == BindingName(key) && key in s.platforms && HasFinalizer(s.platforms[key].finalizers)
  }

  /** The place of a kind in the order of cleanup. */
  function Place(kind: Kind): nat {
    match kind
    case Ingress => 0
    case Route => 1
    case Service => 2
    case Deployment => 3
    case ServiceAccount => 5
  }

  /** How much a cleanup at a stage has behind it; the binding is at place 4. */
  function Behind(stage: Stage): nat {
    match stage
    case Look(kind) => Place(kind)
    case Drop(kind) => Place(kind)
    case LookBinding => 4
    case DropBinding => 4
    case RemoveFinalizer => 6
    case _ => 0
  }

  /** The stages of the two kinds of reconcile. */
  predicate Fits(cleanup: bool, stage: Stage, openShift: bool) {
    match stage
    case AddFinalizer => !cleanup
    case Check(kind) => !cleanup && !kind.Route?
    case Put(kind) => !cleanup && (kind.Route? ==> openShift)
    case CheckBinding => !cleanup
    case DropDrifted => !cleanup
    case PutBinding => !cleanup
    case Look(kind) => cleanup || kind.Ingress? || kind.Route?
    case Drop(kind) => cleanup || kind.Ingress? || kind.Route?
    case LookBinding => cleanup
    case DropBinding => cleanup
    case RemoveFinalizer => cleanup
  }

  /** What a cleanup has behind it is gone and stays gone. */
  predicate CleanSoFar(s: Cluster, key: Key, job: Job) {
    && (forall kind: Kind | Place(kind) < Behind(job.stage) :: !OwnsObject(s, job.plat.uid, ObjectOf(kind, key)))
    && (4 < Behind(job.stage) ==> !BoundFor(s, BindingName(key), key))
  }

  /** A reconcile that read the finalizer can rely on it: nobody else removes it. */
  predicate JobOk(s: Cluster, key: Key, job: Job) {
    && job.plat.uid.key == key && job.plat.uid.serial < s.serial
    && (HasFinalizer(job.plat.finalizers) ==> Protected(s, job.plat.uid))
    && (!job.cleanup && !job.stage.AddFinalizer? ==> HasFinalizer(job.plat.finalizers))
    && Fits(job.cleanup, job.stage, s.openShift)
    && (job.cleanup ==> CleanSoFar(s, key, job))
  }

  ghost predicate JobsOk(s: Cluster) {
    forall k | k in s.jobs :: JobOk(s, k, s.jobs[k])
  }

  ghost predicate Inv(s: Cluster) {
    PlatformsNumbered(s) && JobsOk(s) && ObjectsProtected(s) && BindingsProtected(s)
  }

  // ---------- What keeps it: control flow, then each kind of write

  lemma EndKeeps(s: Cluster, key: Key)
    requires Inv(s)
    ensures Inv(End(s, key))
  {
    var t := End(s, key);
    assert forall k | k in t.jobs :: JobOk(s, k, s.jobs[k]) && JobOk(t, k, t.jobs[k]);
    assert forall o, uid | OwnsObject(t, uid, o) :: OwnsObject(s, uid, o);
    assert forall b, k | BoundFor(t, b, k) :: BoundFor(s, b, k);
  }

  lemma JobKeeps(s: Cluster, key: Key, job: Job)
    requires Inv(s) && JobOk(s, key, job)
    ensures Inv(s.(jobs := s.jobs[key := job]))
  {
    var t := s.(jobs := s.jobs[key := job]);
    assert forall k | k in t.jobs && k != key :: JobOk(s, k, s.jobs[k]) && JobOk(t, k, t.jobs[k]);
    assert forall o, uid | OwnsObject(t, uid, o) :: OwnsObject(s, uid, o);
    assert forall b, k | BoundFor(t, b, k) :: BoundFor(s, b, k);
  }

  lemma WithoutObjectKeeps(s: Cluster, o: ObjectKey)
    requires Inv(s)
    ensures Inv(WithoutObject(s, o))
  {
    var t := WithoutObject(s, o);
    assert forall o', uid | OwnsObject(t, uid, o') :: OwnsObject(s, uid, o');
    assert forall k | k in t.jobs :: JobOk(s, k, s.jobs[k]) && JobOk(t, k, t.jobs[k]);
    assert forall b, k | BoundFor(t, b, k) :: BoundFor(s, b, k);
  }

  lemma WithoutBindingKeeps(s: Cluster, b: string)
    requires Inv(s)
    ensures Inv(WithoutBinding(s, b))
  {
    var t := WithoutBinding(s, b);
    assert forall b', k | BoundFor(t, b', k) :: BoundFor(s, b', k);
    assert forall k | k in t.jobs :: JobOk(s, k, s.jobs[k]) && JobOk(t, k, t.jobs[k]);
    assert forall o, uid | OwnsObject(t, uid, o) :: OwnsObject(s, uid, o);
  }

  /** Only a reconcile that enables the gateway writes objects, as its own platform. */
  lemma WithObjectKeeps(s: Cluster, key: Key, kind: Kind)
    requires Inv(s) && key in s.jobs && s.jobs[key].stage == Put(kind)
    ensures Inv(WithObject(s, ObjectOf(kind, key), s.jobs[key].plat.uid))
  {
    var uid := s.jobs[key].plat.uid;
    var t := WithObject(s, ObjectOf(kind, key), uid);
    assert JobOk(s, key, s.jobs[key]);
    assert forall o, u | OwnsObject(t, u, o) :: OwnsObject(s, u, o) || (u == uid && o == ObjectOf(kind, key));
    forall k | k in t.jobs
      ensures JobOk(t, k, t.jobs[k])
    {
      assert JobOk(s, k, s.jobs[k]);
    }
    assert forall b, k | BoundFor(t, b, k) :: BoundFor(s, b, k);
  }

  lemma WithBindingKeeps(s: Cluster, key: Key)
    requires Inv(s) && key in s.jobs && s.jobs[key].stage.PutBinding?
    ensures Inv(WithBinding(s, key))
  {
    var t := WithBinding(s, key);
    assert JobOk(s, key, s.jobs[key]);
    assert forall b, k | BoundFor(t, b, k) :: BoundFor(s, b, k) || (b == BindingName(key) && k == key);
    forall k | k in t.jobs
      ensures JobOk(t, k, t.jobs[k])
    {
      assert JobOk(s, k, s.jobs[k]);
    }
    assert forall o, u | OwnsObject(t, u, o) :: OwnsObject(s, u, o);
  }

  /** Whatever happens to platforms keeps the invariant as long as what was protected,
      and still matters, stays protected. */
  lemma PlatformsKeep(s: Cluster, t: Cluster)
    requires Inv(s) && PlatformsNumbered(t)
    requires t.objects == s.objects && t.bindings == s.bindings && t.jobs == s.jobs
    requires s.serial <= t.serial && t.openShift == s.openShift
    requires forall uid | Protected(s, uid) :: Protected(t, uid)
    ensures Inv(t)
  {
    assert forall o, uid | OwnsObject(t, uid, o) :: OwnsObject(s, uid, o);
    forall b, k | BoundFor(t, b, k)
      ensures b == BindingName(k) && k in t.platforms && HasFinalizer(t.platforms[k].finalizers)
    {
      assert BoundFor(s, b, k);
      assert Protected(s, s.platforms[k].uid);
    }
    forall k | k in t.jobs
      ensures JobOk(t, k, t.jobs[k])
    {
      assert JobOk(s, k, s.jobs[k]);
    }
  }

  /** Protection may go once nothing of the platform is left. */
  lemma UnprotectKeeps(s: Cluster, t: Cluster, key: Key)
    requires Inv(s) && PlatformsNumbered(t) && key in s.platforms && key !in s.jobs
    requires t == s.(platforms := t.platforms)
    requires forall k | k != key :: (k in t.platforms <==> k in s.platforms)
                                    && (k in s.platforms ==> t.platforms[k] == s.platforms[k])
    requires forall kind: Kind :: !OwnsObject(s, s.platforms[key].uid, ObjectOf(kind, key))
    requires !BoundFor(s, BindingName(key), key)
    ensures Inv(t)
  {
    forall o, uid | OwnsObject(t, uid, o)
      ensures Protected(t, uid) && o == ObjectOf(o.kind, uid.key) && (o.kind.Route? ==> s.openShift)
    {
      assert OwnsObject(s, uid, o);
    }
    forall b, k | BoundFor(t, b, k)
      ensures b == BindingName(k) && k in t.platforms && HasFinalizer(t.platforms[k].finalizers)
    {
      assert BoundFor(s, b, k);
    }
    forall k | k in t.jobs
      ensures JobOk(t, k, t.jobs[k])
    {
      assert JobOk(s, k, s.jobs[k]);
    }
  }

  // ---------- The steps

  lemma GotoKeeps(s: Cluster, key: Key, stage: Stage)
    requires Inv(s) && key in s.jobs
    requires !s.jobs[key].cleanup && !stage.AddFinalizer? ==> HasFinalizer(s.jobs[key].plat.finalizers)
    requires Fits(s.jobs[key].cleanup, stage, s.openShift)
    requires s.jobs[key].cleanup ==> CleanSoFar(s, key, s.jobs[key].(stage := stage))
    ensures Inv(Goto(s, key, stage))
  {
    assert JobOk(s, key, s.jobs[key]);
    JobKeeps(s, key, s.jobs[key].(stage := stage));
  }

  /** A cleanup that is past one kind more has that much more behind it. */
  lemma CleanBeyond(s: Cluster, key: Key, job: Job, kind: Kind, stage: Stage)
    requires CleanSoFar(s, key, job) && (job.stage == Look(kind) || job.stage == Drop(kind))
    requires !OwnsObject(s, job.plat.uid, ObjectOf(kind, key))
    requires Behind(stage) <= Place(kind) + 1
             || (kind.Ingress? && stage == Look(Service) && !OwnsObject(s, job.plat.uid, ObjectOf(Route, key)))
    ensures CleanSoFar(s, key, job.(stage := stage))
  {
  }

  lemma NextStageKeeps(s: Cluster, key: Key, kind: Kind, stage: Stage)
    requires Inv(s) && key in s.jobs && !stage.AddFinalizer?
    requires s.jobs[key].stage == Look(kind) || s.jobs[key].stage == Drop(kind)
    requires !OwnsObject(s, s.jobs[key].plat.uid, ObjectOf(kind, key))
    requires Behind(stage) <= Place(kind) + 1 || (kind.Ingress? && stage == Look(Service) && !s.openShift)
    requires Fits(s.jobs[key].cleanup, stage, s.openShift)
    ensures Inv(Goto(s, key, stage))
  {
    var job := s.jobs[key];
    assert JobOk(s, key, job);
    if !s.openShift {
      assert !OwnsObject(s, job.plat.uid, ObjectOf(Route, key));
    }
    if job.cleanup {
      CleanBeyond(s, key, job, kind, stage);
    }
    GotoKeeps(s, key, stage);
  }

  /** Past a kind whose own object is not there, the reconcile goes on. */
  lemma AfterDropKeeps(s: Cluster, key: Key, kind: Kind)
    requires Inv(s) && key in s.jobs
    requires s.jobs[key].stage == Look(kind) || s.jobs[key].stage == Drop(kind)
    requires !OwnsObject(s, s.jobs[key].plat.uid, ObjectOf(kind, key))
    ensures Inv(AfterDrop(s, key, kind))
  {
    assert JobOk(s, key, s.jobs[key]);
    match kind
    case Ingress =>
      if s.openShift {
        NextStageKeeps(s, key, kind, Look(Route));
      } else {
        AfterIngressKeeps(s, key, kind);
      }
    case Route => AfterIngressKeeps(s, key, kind);
    case Service => NextStageKeeps(s, key, kind, Look(Deployment));
    case Deployment => NextStageKeeps(s, key, kind, LookBinding);
    case ServiceAccount => NextStageKeeps(s, key, kind, RemoveFinalizer);
  }

  lemma AfterIngressKeeps(s: Cluster, key: Key, kind: Kind)
    requires Inv(s) && key in s.jobs && (if kind.Ingress? then !s.openShift else kind.Route?)
    requires s.jobs[key].stage == Look(kind) || s.jobs[key].stage == Drop(kind)
    requires !OwnsObject(s, s.jobs[key].plat.uid, ObjectOf(kind, key))
    ensures Inv(AfterIngress(s, key))
  {
    if s.jobs[key].cleanup {
      NextStageKeeps(s, key, kind, Look(Service));
    } else {
      EndKeeps(s, key);
    }
  }

  lemma PutKeeps(s: Cluster, key: Key, kind: Kind)
    requires Inv(s) && key in s.jobs && s.jobs[key].stage == Put(kind)
    ensures Inv(PutCall(s, key, kind))
  {
    assert JobOk(s, key, s.jobs[key]);
    EndKeeps(s, key);
    if !(kind.Deployment? && s.jobs[key].plat.gateway.None?) {
      WithObjectKeeps(s, key, kind);
      var t := WithObject(s, ObjectOf(kind, key), s.jobs[key].plat.uid);
      match kind
      case ServiceAccount => GotoKeeps(t, key, CheckBinding);
      case Deployment => GotoKeeps(t, key, Check(Service));
      case Service =>
        if t.jobs[key].plat.gateway.Some? && t.jobs[key].plat.gateway.value.ingressEnabled {
          GotoKeeps(t, key, Put(if t.openShift then Route else Ingress));
        } else {
          GotoKeeps(t, key, Look(Ingress));
        }
      case _ => EndKeeps(t, key);
    }
  }

  lemma LookKeeps(s: Cluster, key: Key, kind: Kind)
    requires Inv(s) && key in s.jobs && s.jobs[key].stage == Look(kind)
    ensures Inv(LookCall(s, key, kind))
  {
    assert JobOk(s, key, s.jobs[key]);
    EndKeeps(s, key);
    if OwnsObject(s, s.jobs[key].plat.uid, ObjectOf(kind, key)) {
      GotoKeeps(s, key, Drop(kind));
    } else {
      AfterDropKeeps(s, key, kind);
    }
  }

  lemma BindingWritesKeep(s: Cluster, key: Key)
    requires Inv(s) && key in s.jobs
    ensures s.jobs[key].stage.CheckBinding? ==> Inv(CheckBindingCall(s, key))
    ensures s.jobs[key].stage.DropDrifted? ==> Inv(DropDriftedCall(s, key))
    ensures s.jobs[key].stage.PutBinding? ==> Inv(PutBindingCall(s, key))
  {
    assert JobOk(s, key, s.jobs[key]);
    match s.jobs[key].stage
    case CheckBinding =>
      GotoKeeps(s, key, DropDrifted);
      GotoKeeps(s, key, PutBinding);
    case DropDrifted =>
      EndKeeps(s, key);
      WithoutBindingKeeps(s, BindingName(key));
      GotoKeeps(WithoutBinding(s, BindingName(key)), key, PutBinding);
    case PutBinding =>
      EndKeeps(s, key);
      WithBindingKeeps(s, key);
      GotoKeeps(WithBinding(s, key), key, Check(Deployment));
    case _ =>
  }

  lemma LookBindingKeeps(s: Cluster, key: Key)
    requires Inv(s) && key in s.jobs && s.jobs[key].stage.LookBinding?
    ensures Inv(LookBindingCall(s, key))
  {
    assert JobOk(s, key, s.jobs[key]);
    EndKeeps(s, key);
    if BindingName(key) in s.bindings {
      GotoKeeps(s, key, DropBinding);
    } else {
      GotoKeeps(s, key, Look(ServiceAccount));
    }
  }

  lemma DropBindingKeeps(s: Cluster, key: Key)
    requires Inv(s) && key in s.jobs && s.jobs[key].stage.DropBinding?
    ensures Inv(Goto(WithoutBinding(s, BindingName(key)), key, Look(ServiceAccount)))
  {
    assert JobOk(s, key, s.jobs[key]);
    WithoutBindingKeeps(s, BindingName(key));
    GotoKeeps(WithoutBinding(s, BindingName(key)), key, Look(ServiceAccount));
  }

  lemma AddFinalizerKeeps(s: Cluster, key: Key)
    requires Inv(s) && key in s.jobs && s.jobs[key].stage.AddFinalizer?
    ensures Inv(AddFinalizerCall(s, key))
  {
    assert JobOk(s, key, s.jobs[key]);
    EndKeeps(s, key);
    var wanted := s.jobs[key].plat.finalizers + [GatewayCleanup];
    assert wanted[|wanted| - 1] == GatewayCleanup;
    match SetFinalizers(s, key, wanted)
    case None =>
    case Some(t) =>
      PlatformsKeep(s, t);
      JobKeeps(t, key, t.jobs[key].(plat := t.platforms[key], stage := Check(ServiceAccount)));
  }

  /** Where the finalizer comes off, nothing of the platform is left. */
  lemma CleanAtTheEnd(s: Cluster, key: Key)
    requires Inv(s) && key in s.jobs && s.jobs[key].stage.RemoveFinalizer?
    ensures forall kind: Kind :: !OwnsObject(s, s.jobs[key].plat.uid, ObjectOf(kind, key))
    ensures !BoundFor(s, BindingName(key), key)
    ensures HasFinalizer(s.jobs[key].plat.finalizers) ==>
              Protected(s, s.jobs[key].plat.uid) && s.jobs[key].plat.uid.key == key
  {
    assert JobOk(s, key, s.jobs[key]);
  }

  lemma SetThenEnd(s: Cluster, key: Key, finalizers: seq<Finalizer>)
    requires SetFinalizers(s, key, finalizers).Some?
    ensures SetFinalizers(End(s, key), key, finalizers) == Some(End(SetFinalizers(s, key, finalizers).value, key))
  {
  }

  lemma RemoveFinalizerKeeps(s: Cluster, key: Key)
    requires Inv(s) && key in s.jobs && s.jobs[key].stage.RemoveFinalizer?
    ensures Inv(RemoveFinalizerCall(s, key))
  {
    var p := s.jobs[key].plat;
    EndKeeps(s, key);
    if HasFinalizer(p.finalizers) && SetFinalizers(s, key, Without(p.finalizers)).Some? {
      var ended := End(s, key);
      CleanAtTheEnd(s, key);
      SetThenEnd(s, key, Without(p.finalizers));
      assert forall kind: Kind ::
          OwnsObject(ended, p.uid, ObjectOf(kind, key)) <==> OwnsObject(s, p.uid, ObjectOf(kind, key));
      UnsetFinalizerKeeps(ended, key, Without(p.finalizers));
    }
  }

  lemma UnsetFinalizerKeeps(s: Cluster, key: Key, rest: seq<Finalizer>)
    requires Inv(s) && key in s.platforms && key !in s.jobs && SetFinalizers(s, key, rest).Some?
    requires forall kind: Kind :: !OwnsObject(s, s.platforms[key].uid, ObjectOf(kind, key))
    requires !BoundFor(s, BindingName(key), key)
    ensures Inv(SetFinalizers(s, key, rest).value)
  {
    UnprotectKeeps(s, SetFinalizers(s, key, rest).value, key);
  }

  lemma CallKeeps(s: Cluster, key: Key, fault: bool)
    requires Inv(s) && key in s.jobs
    ensures Inv(CallStep(s, key, fault))
  {
    assert JobOk(s, key, s.jobs[key]);
    EndKeeps(s, key);
    match s.jobs[key].stage
    case AddFinalizer => AddFinalizerKeeps(s, key);
    case Check(kind) => GotoKeeps(s, key, Put(kind));
    case Put(kind) => PutKeeps(s, key, kind);
    case Look(kind) => LookKeeps(s, key, kind);
    case Drop(kind) =>
      WithoutObjectKeeps(s, ObjectOf(kind, key));
      AfterDropKeeps(WithoutObject(s, ObjectOf(kind, key)), key, kind);
    case RemoveFinalizer => RemoveFinalizerKeeps(s, key);
    case LookBinding => LookBindingKeeps(s, key);
    case DropBinding => DropBindingKeeps(s, key);
    case _ => BindingWritesKeep(s, key);
  }

  lemma UserKeeps(s: Cluster, e: Event)
    requires Inv(s) && UserStep(s, e).Some?
    ensures Inv(UserStep(s, e).value)
  {
    match e
    case CreateForeign(o, _) => ForeignObjectKeeps(s, e);
    case DeleteObject(o) => WithoutObjectKeeps(s, o);
    case CreateForeignBinding(b, _, _, _) => ForeignBindingKeeps(s, e);
    case DeleteBinding(b) => WithoutBindingKeeps(s, b);
    case SetOtherFinalizers(key, finalizers) => SetOtherFinalizersKeeps(s, key, finalizers);
    case _ => PlatformEventKeeps(s, e);
  }

  predicate PlatformEvent(e: Event) {
    e.CreatePlatform? || e.SetGateway? || e.DeletePlatform?
  }

  lemma PlatformEventNumbers(s: Cluster, e: Event)
    requires PlatformsNumbered(s) && UserStep(s, e).Some? && PlatformEvent(e)
    ensures PlatformsNumbered(UserStep(s, e).value)
  {
  }

  lemma PlatformEventProtects(s: Cluster, e: Event, uid: Uid)
    requires Protected(s, uid) && UserStep(s, e).Some? && PlatformEvent(e)
    ensures Protected(UserStep(s, e).value, uid)
  {
  }

  lemma PlatformEventKeeps(s: Cluster, e: Event)
    requires Inv(s) && UserStep(s, e).Some? && PlatformEvent(e)
    ensures Inv(UserStep(s, e).value)
  {
    PlatformEventNumbers(s, e);
    forall uid | Protected(s, uid)
      ensures Protected(UserStep(s, e).value, uid)
    {
      PlatformEventProtects(s, e, uid);
    }
    PlatformsKeep(s, UserStep(s, e).value);
  }

  lemma SetOtherFinalizersKeeps(s: Cluster, key: Key, finalizers: seq<Finalizer>)
    requires Inv(s) && key in s.platforms && SetFinalizers(s, key, finalizers).Some?
    requires HasFinalizer(finalizers) <==> HasFinalizer(s.platforms[key].finalizers)
    ensures Inv(SetFinalizers(s, key, finalizers).value)
  {
    PlatformsKeep(s, SetFinalizers(s, key, finalizers).value);
  }

  lemma ForeignObjectKeeps(s: Cluster, e: Event)
    requires Inv(s) && e.CreateForeign? && UserStep(s, e).Some?
    ensures Inv(UserStep(s, e).value)
  {
    var t := UserStep(s, e).value;
    assert forall o', uid | OwnsObject(t, uid, o') :: OwnsObject(s, uid, o');
    assert forall k | k in t.jobs :: JobOk(s, k, s.jobs[k]) && JobOk(t, k, t.jobs[k]);
    assert forall b, k | BoundFor(t, b, k) :: BoundFor(s, b, k);
  }

  lemma ForeignBindingKeeps(s: Cluster, e: Event)
    requires Inv(s) && e.CreateForeignBinding? && UserStep(s, e).Some?
    ensures Inv(UserStep(s, e).value)
  {
    var t := UserStep(s, e).value;
    assert forall o', uid | OwnsObject(t, uid, o') :: OwnsObject(s, uid, o');
    assert forall k | k in t.jobs :: JobOk(s, k, s.jobs[k]) && JobOk(t, k, t.jobs[k]);
    assert forall b, k | BoundFor(t, b, k) :: BoundFor(s, b, k);
  }

  lemma BeginKeeps(s: Cluster, key: Key)
    requires Inv(s) && BeginStep(s, key).Some?
    ensures Inv(BeginStep(s, key).value)
  {
    var t := BeginStep(s, key).value;
    if key in t.jobs && key !in s.jobs {
      JobKeeps(s, key, t.jobs[key]);
    }
  }

  lemma StepKeepsInv(s: Cluster, e: Event)
    requires Inv(s) && Next(s, e).Some?
    ensures Inv(Next(s, e).value)
  {
    match e
    case Begin(key) => BeginKeeps(s, key);
    case Call(key, fault) => CallKeeps(s, key, fault);
    case Abort(key) => EndKeeps(s, key);
    case _ => UserKeeps(s, e);
  }

  lemma {:induction false} RunKeepsInv(s: Cluster, events: seq<Event>)
    requires Inv(s) && Run(s, events).Some?
    ensures Inv(Run(s, events).value)
    decreases |events|
  {
    if events != [] {
      StepKeepsInv(s, events[0]);
      RunKeepsInv(Next(s, events[0]).value, events[1..]);
    }
  }

  lemma ReachedInv(s: Cluster)
    requires Reached(s)
    ensures Inv(s)
  {
    var openShift, events :| Run(Empty(openShift), events) == Some(s);
    RunKeepsInv(Empty(openShift), events);
  }

  // ---------- Safety over every run and every failure point

  /** Every ClusterRoleBinding the operator wrote names a platform that exists and still
      has the gateway finalizer, whichever platforms share its name. */
  lemma BindingsNameProtectedPlatforms(s: Cluster, b: string)
    requires Reached(s) && b in s.bindings && s.bindings[b].byOperator
    ensures s.bindings[b].platform in s.platforms
    ensures HasFinalizer(s.platforms[s.bindings[b].platform].finalizers)
  {
    ReachedInv(s);
    assert BoundFor(s, b, s.bindings[b].platform);
  }

  /** Every object a platform owns belongs to an existing incarnation with the finalizer. */
  lemma OwnersAreProtected(s: Cluster, o: ObjectKey, uid: Uid)
    requires Reached(s) && OwnsObject(s, uid, o)
    ensures Protected(s, uid)
  {
    ReachedInv(s);
  }

  /** Without the finalizer, nothing of a platform remains. */
  lemma NoFinalizerNothingLeft(s: Cluster, key: Key)
    requires Reached(s) && key in s.platforms && !HasFinalizer(s.platforms[key].finalizers)
    ensures forall o :: !OwnsObject(s, s.platforms[key].uid, o)
    ensures forall b :: !BoundFor(s, b, key)
  {
    ReachedInv(s);
  }

  /** Over every run a cleanup keeps its order: nothing of a kind is deleted before what
      comes first in the order is gone, and the account goes last. */
  lemma CleansInOrder(s: Cluster, key: Key)
    requires Reached(s) && key in s.jobs && s.jobs[key].cleanup
    ensures var uid, stage := s.jobs[key].plat.uid, s.jobs[key].stage;
            && (stage in {Drop(Service), Drop(Deployment), DropBinding, Drop(ServiceAccount)} ==>
                  !OwnsObject(s, uid, ObjectOf(Ingress, key)) && !OwnsObject(s, uid, ObjectOf(Route, key)))
            && (stage in {Drop(Deployment), DropBinding, Drop(ServiceAccount)} ==>
                  !OwnsObject(s, uid, ObjectOf(Service, key)))
            && (stage in {DropBinding, Drop(ServiceAccount)} ==> !OwnsObject(s, uid, ObjectOf(Deployment, key)))
            && (stage == Drop(ServiceAccount) ==> !BoundFor(s, BindingName(key), key))
  {
    ReachedInv(s);
    assert JobOk(s, key, s.jobs[key]);
  }

  /** Two ways in which enabling ends early: a drifted binding that has gone before it is
      deleted, and a gateway that was disabled before the finalizer was added. Neither
      changes anything. */
  lemma StopsShort(s: Cluster, key: Key)
    requires key in s.jobs
    ensures var t, job := CallStep(s, key, false), s.jobs[key];
            && (job.stage == DropDrifted ==> (t == End(s, key) <==> BindingName(key) !in s.bindings))
            && (job.stage == Put(Deployment) ==> (t == End(s, key) <==> job.plat.gateway.None?))
  {
    if s.jobs[key].stage == DropDrifted || s.jobs[key].stage == Put(Deployment) {
      assert key !in End(s, key).jobs;
      assert CallStep(s, key, false)
          == if s.jobs[key].stage == DropDrifted then DropDriftedCall(s, key) else PutCall(s, key, Deployment);
    }
  }

  // ---------- What the operator leaves alone

  /** Nothing of other platforms and nothing under other names changes. */
  ghost predicate TouchesOnly(s: Cluster, t: Cluster, key: Key) {
    && t.openShift == s.openShift && t.serial == s.serial
    && (forall k | k != key :: (k in t.platforms <==> k in s.platforms)
                               && (k in s.platforms ==> t.platforms[k] == s.platforms[k]))
    && (forall k | k != key :: (k in t.jobs <==> k in s.jobs) && (k in s.jobs ==> t.jobs[k] == s.jobs[k]))
    && (forall o: ObjectKey | o != ObjectOf(o.kind, key) ::
          (o in t.objects <==> o in s.objects) && (o in s.objects ==> t.objects[o] == s.objects[o]))
    && (forall b | b != BindingName(key) ::
          (b in t.bindings <==> b in s.bindings) && (b in s.bindings ==> t.bindings[b] == s.bindings[b]))
  }

  /** Only the job of a key may differ. */
  predicate SameBut(s: Cluster, t: Cluster, key: Key) {
    t == s.(jobs := t.jobs) && t.jobs - {key} == s.jobs - {key}
  }

  /** What a call does to everything but the job. */
  function Effect(s: Cluster, key: Key, fault: bool): Cluster
    requires key in s.jobs
  {
    var job := s.jobs[key];
    if fault then s
    else match job.stage
         case AddFinalizer => SetFinalizers(s, key, job.plat.finalizers + [GatewayCleanup]).GetOr(s)
         case RemoveFinalizer =>
           if HasFinalizer(job.plat.finalizers) then SetFinalizers(s, key, Without(job.plat.finalizers)).GetOr(s) else s
         case Put(kind) =>
           if kind.Deployment? && job.plat.gateway.None? then s else WithObject(s, ObjectOf(kind, key), job.plat.uid)
         case Drop(kind) => WithoutObject(s, ObjectOf(kind, key))
         case DropDrifted => WithoutBinding(s, BindingName(key))
         case DropBinding => WithoutBinding(s, BindingName(key))
         case PutBinding =>
           if BindingName(key) in s.bindings && s.bindings[BindingName(key)].roleRef != GATEWAY_ROLE then s
           else WithBinding(s, key)
         case _ => s
  }

  lemma EndSameBut(s: Cluster, key: Key)
    ensures SameBut(s, End(s, key), key)
  {
  }

  lemma GotoSameBut(s: Cluster, key: Key, stage: Stage)
    requires key in s.jobs
    ensures SameBut(s, Goto(s, key, stage), key)
  {
  }

  lemma AfterDropSameBut(s: Cluster, key: Key, kind: Kind)
    requires key in s.jobs
    ensures SameBut(s, AfterDrop(s, key, kind), key)
  {
    EndSameBut(s, key);
    forall stage
      ensures SameBut(s, Goto(s, key, stage), key)
    {
      GotoSameBut(s, key, stage);
    }
  }

  lemma AfterPutSameBut(s: Cluster, key: Key, kind: Kind)
    requires key in s.jobs
    ensures SameBut(s, AfterPut(s, key, kind), key)
  {
    EndSameBut(s, key);
    forall stage
      ensures SameBut(s, Goto(s, key, stage), key)
    {
      GotoSameBut(s, key, stage);
    }
  }

  lemma CallEffect(s: Cluster, key: Key, fault: bool)
    requires key in s.jobs
    ensures SameBut(Effect(s, key, fault), CallStep(s, key, fault), key)
  {
    EndSameBut(s, key);
    match s.jobs[key].stage
    case AddFinalizer => FinalizerEffect(s, key, fault);
    case RemoveFinalizer => FinalizerEffect(s, key, fault);
    case Check(kind) => GotoSameBut(s, key, Put(kind));
    case Put(kind) =>
      var t := WithObject(s, ObjectOf(kind, key), s.jobs[key].plat.uid);
      AfterPutSameBut(t, key, kind);
    case Look(kind) => LookEffect(s, key, kind, fault);
    case Drop(kind) => AfterDropSameBut(WithoutObject(s, ObjectOf(kind, key)), key, kind);
    case _ => BindingEffect(s, key, fault);
  }

  lemma FinalizerEffect(s: Cluster, key: Key, fault: bool)
    requires key in s.jobs && (s.jobs[key].stage.AddFinalizer? || s.jobs[key].stage.RemoveFinalizer?)
    ensures SameBut(Effect(s, key, fault), CallStep(s, key, fault), key)
  {
    var t := Effect(s, key, fault);
    EndSameBut(s, key);
    EndSameBut(t, key);
    if s.jobs[key].stage.RemoveFinalizer? {
      assert CallStep(s, key, fault) == End(t, key);
    } else if CallStep(s, key, fault) != End(s, key) {
      assert CallStep(s, key, fault)
          == t.(jobs := t.jobs[key := t.jobs[key].(plat := t.platforms[key], stage := Check(ServiceAccount))]);
    }
  }

  lemma LookEffect(s: Cluster, key: Key, kind: Kind, fault: bool)
    requires key in s.jobs && s.jobs[key].stage == Look(kind)
    ensures SameBut(s, CallStep(s, key, fault), key)
  {
    EndSameBut(s, key);
    AfterDropSameBut(s, key, kind);
    GotoSameBut(s, key, Drop(kind));
  }

  predicate BindingCall(stage: Stage) {
    stage.CheckBinding? || stage.DropDrifted? || stage.PutBinding? || stage.LookBinding? || stage.DropBinding?
  }

  lemma BindingEffect(s: Cluster, key: Key, fault: bool)
    requires key in s.jobs && BindingCall(s.jobs[key].stage)
    ensures SameBut(Effect(s, key, fault), CallStep(s, key, fault), key)
  {
    var without := WithoutBinding(s, BindingName(key));
    EndSameBut(s, key);
    match s.jobs[key].stage
    case CheckBinding =>
      GotoSameBut(s, key, DropDrifted);
      GotoSameBut(s, key, PutBinding);
    case DropDrifted =>
      assert BindingName(key) !in s.bindings ==> without == s;
      GotoSameBut(without, key, PutBinding);
    case PutBinding => GotoSameBut(WithBinding(s, key), key, Check(Deployment));
    case LookBinding =>
      GotoSameBut(s, key, DropBinding);
      GotoSameBut(s, key, Look(ServiceAccount));
    case DropBinding => GotoSameBut(without, key, Look(ServiceAccount));
  }

  lemma CallTouchesOnly(s: Cluster, key: Key, fault: bool)
    requires key in s.jobs
    ensures TouchesOnly(s, CallStep(s, key, fault), key)
  {
    var t := CallStep(s, key, fault);
    CallEffect(s, key, fault);
    EffectTouchesOnly(s, key, fault);
    forall k | k != key
      ensures (k in t.jobs <==> k in s.jobs) && (k in s.jobs ==> t.jobs[k] == s.jobs[k])
    {
      assert k in t.jobs <==> k in t.jobs - {key};
      assert k in s.jobs <==> k in s.jobs - {key};
      assert k in s.jobs ==> t.jobs[k] == (t.jobs - {key})[k] == (s.jobs - {key})[k];
    }
  }

  lemma SetFinalizersTouches(s: Cluster, key: Key, finalizers: seq<Finalizer>)
    ensures TouchesOnly(s, SetFinalizers(s, key, finalizers).GetOr(s), key)
    ensures SetFinalizers(s, key, finalizers).GetOr(s).jobs == s.jobs
  {
  }

  lemma ObjectWritesTouch(s: Cluster, key: Key, kind: Kind, uid: Uid)
    ensures TouchesOnly(s, WithObject(s, ObjectOf(kind, key), uid), key)
    ensures TouchesOnly(s, WithoutObject(s, ObjectOf(kind, key)), key)
  {
  }

  lemma BindingWritesTouch(s: Cluster, key: Key)
    ensures TouchesOnly(s, WithBinding(s, key), key) && TouchesOnly(s, WithoutBinding(s, BindingName(key)), key)
  {
  }

  lemma TouchesNothing(s: Cluster, key: Key)
    ensures TouchesOnly(s, s, key)
  {
  }

  /** The clusters that a call can lead to, by what it writes. */
  lemma EffectCases(s: Cluster, key: Key, fault: bool)
    requires key in s.jobs
    ensures var e, job := Effect(s, key, fault), s.jobs[key];
            || e == s || e == WithBinding(s, key) || e == WithoutBinding(s, BindingName(key))
            || (job.stage.AddFinalizer? && e == SetFinalizers(s, key, job.plat.finalizers + [GatewayCleanup]).GetOr(s))
            || (job.stage.RemoveFinalizer? && e == SetFinalizers(s, key, Without(job.plat.finalizers)).GetOr(s))
            || (job.stage.Put? && e == WithObject(s, ObjectOf(job.stage.kind, key), job.plat.uid))
            || (job.stage.Drop? && e == WithoutObject(s, ObjectOf(job.stage.kind, key)))
  {
  }

  lemma EffectTouchesOnly(s: Cluster, key: Key, fault: bool)
    requires key in s.jobs
    ensures TouchesOnly(s, Effect(s, key, fault), key) && Effect(s, key, fault).jobs == s.jobs
  {
    var job := s.jobs[key];
    EffectCases(s, key, fault);
    TouchesNothing(s, key);
    BindingWritesTouch(s, key);
    SetFinalizersTouches(s, key, job.plat.finalizers + [GatewayCleanup]);
    SetFinalizersTouches(s, key, Without(job.plat.finalizers));
    if job.stage.Put? || job.stage.Drop? {
      ObjectWritesTouch(s, key, job.stage.kind, job.plat.uid);
    }
  }

  lemma TouchesOnlyAgain(s: Cluster, t: Cluster, u: Cluster, key: Key)
    requires TouchesOnly(s, t, key) && TouchesOnly(t, u, key)
    ensures TouchesOnly(s, u, key)
  {
  }

  /** The finalizers that the next call sends, if it sends any: those the reconcile read,
      with the gateway's at the end, or without it. */
  function Sent(s: Cluster, key: Key, fault: bool): Option<seq<Finalizer>>
    requires key in s.jobs
  {
    var job := s.jobs[key];
    if fault then None
    else match job.stage
         case AddFinalizer => Some(job.plat.finalizers + [GatewayCleanup])
         case RemoveFinalizer =>
           if GatewayCleanup in job.plat.finalizers then Some(Without(job.plat.finalizers)) else None
         case _ => None
  }

  /** The API server takes the write: the platform is there, and gains no finalizer while
      it is being deleted. */
  predicate Taken(s: Cluster, key: Key, fault: bool)
    requires key in s.jobs
  {
    && Sent(s, key, fault).Some? && key in s.platforms
    && (s.platforms[key].deleting ==> forall f | f in Sent(s, key, fault).value :: f in s.platforms[key].finalizers)
  }

  /** What becomes of the platforms when finalizers are sent. */
  function Rewritten(s: Cluster, key: Key, finalizers: seq<Finalizer>): map<Key, Platform>
    requires key in s.platforms
  {
    if s.platforms[key].deleting && finalizers == [] then s.platforms - {key}
    else s.platforms[key := s.platforms[key].(finalizers := finalizers)]
  }

  /** A call changes nothing of its platform but the finalizers, which become exactly what
      was sent; only a platform under deletion goes, and only with its last finalizer. */
  lemma CallWritesFinalizers(s: Cluster, key: Key, fault: bool)
    requires key in s.jobs
    ensures CallStep(s, key, fault).platforms
         == if Taken(s, key, fault) then Rewritten(s, key, Sent(s, key, fault).value) else s.platforms
  {
    CallEffect(s, key, fault);
    EffectPlatforms(s, key, fault);
  }

  lemma SetFinalizersMeaning(s: Cluster, key: Key, finalizers: seq<Finalizer>)
    ensures SetFinalizers(s, key, finalizers).GetOr(s).platforms
         == if key in s.platforms
               && (s.platforms[key].deleting ==> forall f | f in finalizers :: f in s.platforms[key].finalizers)
            then Rewritten(s, key, finalizers) else s.platforms
  {
  }

  lemma EffectPlatforms(s: Cluster, key: Key, fault: bool)
    requires key in s.jobs
    ensures Effect(s, key, fault).platforms
         == if Taken(s, key, fault) then Rewritten(s, key, Sent(s, key, fault).value) else s.platforms
  {
    if Sent(s, key, fault).Some? {
      SetFinalizersMeaning(s, key, Sent(s, key, fault).value);
      assert Effect(s, key, fault) == SetFinalizers(s, key, Sent(s, key, fault).value).GetOr(s);
    } else {
      EffectKeepsPlatforms(s, key, fault);
    }
  }

  lemma EffectKeepsPlatforms(s: Cluster, key: Key, fault: bool)
    requires key in s.jobs && Sent(s, key, fault).None?
    ensures Effect(s, key, fault).platforms == s.platforms
  {
  }

  predicate OnPlatform(s: Cluster, key: Key, f: Finalizer) {
    key in s.platforms && f in s.platforms[key].finalizers
  }

  /** A call takes off somebody else's finalizer exactly when its write is taken and the
      reconcile had not read that finalizer: the write sends the whole list. */
  lemma TakesOffIff(s: Cluster, key: Key, fault: bool, f: Finalizer)
    requires key in s.jobs && OnPlatform(s, key, f) && f != GatewayCleanup
    ensures !OnPlatform(CallStep(s, key, fault), key, f)
        <==> Taken(s, key, fault) && f !in s.jobs[key].plat.finalizers
  {
    CallWritesFinalizers(s, key, fault);
  }

  /** So a reconcile that has read the platform as it is takes off no other finalizer. */
  lemma KeepsReadFinalizers(s: Cluster, key: Key, fault: bool, f: Finalizer)
    requires key in s.jobs && OnPlatform(s, key, f) && f != GatewayCleanup && f in s.jobs[key].plat.finalizers
    ensures OnPlatform(CallStep(s, key, fault), key, f)
  {
    TakesOffIff(s, key, fault, f);
  }

  lemma RunFirst(s: Cluster, e: Event, rest: seq<Event>)
    requires Next(s, e).Some?
    ensures Run(s, [e] + rest) == Run(Next(s, e).value, rest)
  {
  }

  /** The exception is real: a finalizer that somebody adds between the reconcile's read
      and its own write is lost. */
  lemma LateFinalizerLost(s: Cluster, key: Key, f: Finalizer)
    requires key in s.platforms && key !in s.jobs && s.platforms[key].gateway.Some? && !s.platforms[key].deleting
    requires !HasFinalizer(s.platforms[key].finalizers) && f != GatewayCleanup && f !in s.platforms[key].finalizers
    ensures var added := SetOtherFinalizers(key, s.platforms[key].finalizers + [f]);
            var t := Run(s, [Begin(key)] + ([added] + ([Call(key, false)] + [])));
            t.Some? && key in t.value.platforms
            && t.value.platforms[key].finalizers == s.platforms[key].finalizers + [GatewayCleanup]
            && !OnPlatform(t.value, key, f)
  {
    var added := SetOtherFinalizers(key, s.platforms[key].finalizers + [f]);
    var s1 := Next(s, Begin(key)).value;
    var s2 := Next(s1, added).value;
    RunFirst(s, Begin(key), [added] + ([Call(key, false)] + []));
    RunFirst(s1, added, [Call(key, false)] + []);
    RunFirst(s2, Call(key, false), []);
    CallWritesFinalizers(s2, key, false);
  }
}
