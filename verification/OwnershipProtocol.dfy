/** Which runtime owns a workflow: every definition first publishes its identity labels
    and only in a later reconcile lists its labelled siblings and applies its ConfigMap.
    The API calls of any number of reconciles interleave with users' changes, and the
    webhook admits a creation some time before it is written. */
module OwnershipProtocol {
  import opened Definitions
  import opened Kubernetes
  import opened Wrappers

  /** Where a reconcile stands: the definition it read, and the call it makes next. */
  datatype Stage = Patching | Listing | Applying
  datatype Job = Job(def: Def, flow: FlowDoc, stage: Stage)

  /** A creation that the webhook has let pass and the API server has yet to write. */
  datatype Request = Request(key: Key, spec: Spec, labels: Labels)

  /** At most one reconcile per object name is in flight, so jobs are keyed by it. */
  datatype Cluster = Cluster(
    defs: map<Key, Def>,
    configMaps: map<Key, ConfigMap>,
    jobs: map<Key, Job>,
    admitted: multiset<Request>,
    nextUid: nat)

  const EMPTY := Cluster(map[], map[], map[], multiset{}, 0)

  datatype Event =
    | Admit(request: Request)  // the webhook lists and lets pass
    | Create(request: Request) // the write
    | Update(key: Key, spec: Spec)
    | Delete(key: Key)
    | DropConfigMap(key: Key)  // garbage collection, or a user
    | Begin(key: Key)          // Get, parse, compare labels
    | Patch(key: Key)
    | List(key: Key)
    | Apply(key: Key)
    | Abort(key: Key)          // any call fails, or the operator stops

  /** A merge patch sends only the labels that differ from the definition as read. */
  function PatchLabels(live: Labels, read: Labels, wanted: Labels): Labels {
    live + map l | l in wanted && !(l in read && read[l] == wanted[l]) :: wanted[l]
  }

  function AdmitStep(s: Cluster, r: Request): Option<Cluster> {
    if r.key.ns != "" && ValidateCreate(s.defs, r.key, r.spec).Admitted?
    then Some(s.(admitted := s.admitted + multiset{r})) else None
  }

  function CreateStep(s: Cluster, r: Request): Option<Cluster> {
    if r.key.ns != "" && r in s.admitted && r.key !in s.defs
    then Some(s.(defs := s.defs[r.key := Def(s.nextUid, r.spec, r.labels)],
                 admitted := s.admitted - multiset{r}, nextUid := s.nextUid + 1))
    else None
  }

  function UpdateStep(s: Cluster, key: Key, spec: Spec): Option<Cluster> {
    if key in s.defs && ValidateUpdate(s.defs[key].spec, spec).Admitted?
    then Some(s.(defs := s.defs[key := s.defs[key].(spec := spec)]))
    else None
  }

  function BeginStep(s: Cluster, key: Key): Option<Cluster> {
    if key in s.jobs then None
    else if key !in s.defs || ParseFlow(s.defs[key].spec).None? then Some(s)
    else
      var def := s.defs[key];
      var flow := ParseFlow(def.spec).value;
      Some(s.(jobs := s.jobs[key := Job(def, flow, if LabelsUpToDate(key, def, flow) then Listing else Patching)]))
  }

  function PatchStep(s: Cluster, key: Key): Option<Cluster> {
    if !(key in s.jobs && s.jobs[key].stage.Patching?) then None
    else
      var job := s.jobs[key];
      var wanted := IdentityLabels(key, job.def.spec.runtimeRef, job.flow);
      var ended := s.(jobs := s.jobs - {key});
      if key !in s.defs then Some(ended)
      else Some(ended.(defs := s.defs[key :=
                   s.defs[key].(labels := PatchLabels(s.defs[key].labels, job.def.labels, wanted))]))
  }

  function ListStep(s: Cluster, key: Key): Option<Cluster> {
    if !(key in s.jobs && s.jobs[key].stage.Listing?) then None
    else
      var job := s.jobs[key];
      if HasConflict(s.defs, key, job.def.spec.runtimeRef, job.flow.name)
      then Some(s.(jobs := s.jobs - {key}))
      else Some(s.(jobs := s.jobs[key := job.(stage := Applying)]))
  }

  function ApplyStep(s: Cluster, key: Key): Option<Cluster> {
    if !(key in s.jobs && s.jobs[key].stage.Applying?) then None
    else
      var job := s.jobs[key];
      Some(s.(jobs := s.jobs - {key},
              configMaps := s.configMaps[ConfigMapKey(key) := BuildConfigMap(key, job.def, job.flow)]))
  }

  function Next(s: Cluster, e: Event): Option<Cluster> {
    match e
    case Admit(r) => AdmitStep(s, r)
    case Create(r) => CreateStep(s, r)
    case Update(key, spec) => UpdateStep(s, key, spec)
    case Delete(key) => if key in s.defs then Some(s.(defs := s.defs - {key})) else None
    case DropConfigMap(key) => Some(s.(configMaps := s.configMaps - {key}))
    case Begin(key) => BeginStep(s, key)
    case Patch(key) => PatchStep(s, key)
    case List(key) => ListStep(s, key)
    case Apply(key) => ApplyStep(s, key)
    case Abort(key) => Some(s.(jobs := s.jobs - {key}))
  }

  ghost function Run(s: Cluster, events: seq<Event>): Option<Cluster>
    decreases |events|
  {
    if events == [] then Some(s)
    else match Next(s, events[0])
         case None => None
         case Some(t) => Run(t, events[1..])
  }

  ghost predicate Reached(s: Cluster) {
    exists events :: Run(EMPTY, events) == Some(s)
  }

  // ---------- What is claimed

  /** The definition that the ConfigMap's owner reference points at. */
  function OwnerKey(s: Cluster, c: Key): Key
    requires c in s.configMaps
  {
    Key(c.ns, s.configMaps[c].owner.name)
  }

  /** The owner reference points at a live definition, by name and uid. */
  predicate OwnedBy(s: Cluster, c: Key, key: Key) {
    && c in s.configMaps && key in s.defs
    && key == OwnerKey(s, c) && s.configMaps[c].owner.uid == s.defs[key].uid
  }

  /** The live definition owns a ConfigMap. */
  ghost predicate Owns(s: Cluster, key: Key) {
    exists c :: OwnedBy(s, c, key)
  }

  /** The same workflow on another runtime. */
  predicate OtherRuntime(a: Spec, b: Spec) {
    && ParseFlow(a).Some? && ParseFlow(b).Some? && ParseFlow(a).value.name == ParseFlow(b).value.name
    && a.runtimeRef != b.runtimeRef
  }

  /** Two live definitions of one workflow that disagree on the runtime. */
  ghost predicate Rivals(s: Cluster, a: Key, b: Key) {
    a in s.defs && b in s.defs && a.ns == b.ns && OtherRuntime(s.defs[a].spec, s.defs[b].spec)
  }

  /** The ConfigMap's owner still exists. */
  ghost predicate Live(s: Cluster, c: Key) {
    exists key :: OwnedBy(s, c, key)
  }

  // ---------- The invariant

  /** The labels by which siblings find the definition are on it. */
  predicate Published(key: Key, def: Def) {
    ParseFlow(def.spec).Some? && Selected(def.labels, key.ns, ParseFlow(def.spec).value.name)
  }

  ghost predicate Current(s: Cluster, key: Key) {
    key in s.jobs && key in s.defs && s.jobs[key].def.uid == s.defs[key].uid
  }

  /** Has listed its siblings without conflict, now or in the past. */
  ghost predicate Cleared(s: Cluster, key: Key) {
    OwnedBy(s, ConfigMapKey(key), key) || (Current(s, key) && s.jobs[key].stage.Applying?)
  }

  ghost predicate DefsFresh(s: Cluster) {
    forall k | k in s.defs :: s.defs[k].uid < s.nextUid && k.ns != ""
  }

  ghost predicate ReferencesFresh(s: Cluster) {
    && (forall c | c in s.configMaps :: s.configMaps[c].owner.uid < s.nextUid)
    && (forall k | k in s.jobs :: s.jobs[k].def.uid < s.nextUid)
  }

  ghost predicate UidsFresh(s: Cluster) {
    DefsFresh(s) && ReferencesFresh(s)
  }

  ghost predicate JobAgrees(s: Cluster, k: Key)
    requires Current(s, k)
  {
    var job := s.jobs[k];
    && job.def.spec.runtimeRef == s.defs[k].spec.runtimeRef
    && ParseFlow(s.defs[k].spec).Some? && job.flow.name == ParseFlow(s.defs[k].spec).value.name
    && (!job.stage.Patching? ==> Published(k, s.defs[k]))
  }

  ghost predicate JobsAgree(s: Cluster) {
    forall k | Current(s, k) :: JobAgrees(s, k)
  }

  /** Two incarnations of a name never reconcile at once, so while the older one's
      reconcile is in flight the newer one owns nothing. */
  ghost predicate StaleJobsOwnNothing(s: Cluster) {
    forall k | k in s.jobs && k in s.defs && s.jobs[k].def.uid != s.defs[k].uid :: !OwnedBy(s, ConfigMapKey(k), k)
  }

  ghost predicate ConfigMapAgrees(s: Cluster, k: Key)
    requires OwnedBy(s, ConfigMapKey(k), k)
  {
    && Published(k, s.defs[k])
    && Label(s.configMaps[ConfigMapKey(k)].labels, RuntimeRef) == s.defs[k].spec.runtimeRef
    && Label(s.configMaps[ConfigMapKey(k)].labels, WorkflowName) == ParseFlow(s.defs[k].spec).value.name
  }

  ghost predicate ConfigMapsAgree(s: Cluster) {
    && (forall c | c in s.configMaps :: c == ConfigMapKey(OwnerKey(s, c)))
    && (forall k | OwnedBy(s, ConfigMapKey(k), k) :: ConfigMapAgrees(s, k))
  }

  ghost predicate RivalsExcluded(s: Cluster) {
    forall a, b | Rivals(s, a, b) :: !(Cleared(s, a) && Cleared(s, b))
  }

  ghost predicate Inv(s: Cluster) {
    UidsFresh(s) && JobsAgree(s) && StaleJobsOwnNothing(s) && ConfigMapsAgree(s) && RivalsExcluded(s)
  }

  /** Every cleared definition has published its labels. */
  lemma ClearedPublished(s: Cluster, key: Key)
    requires Inv(s) && Cleared(s, key)
    ensures key in s.defs && Published(key, s.defs[key])
  {
  }

  lemma StepKeepsInv(s: Cluster, e: Event)
    requires Inv(s) && Next(s, e).Some?
    ensures Inv(Next(s, e).value)
  {
    KeepsUidsFresh(s, e);
    KeepsJobsAgree(s, e);
    KeepsStaleJobs(s, e);
    KeepsConfigMaps(s, e);
    KeepsExclusion(s, e);
  }

  lemma KeepsUidsFresh(s: Cluster, e: Event)
    requires UidsFresh(s) && Next(s, e).Some?
    ensures UidsFresh(Next(s, e).value)
  {
    KeepsDefsFresh(s, e);
    KeepsReferencesFresh(s, e);
  }

  lemma KeepsDefsFresh(s: Cluster, e: Event)
    requires DefsFresh(s) && Next(s, e).Some?
    ensures DefsFresh(Next(s, e).value)
  {
  }

  lemma KeepsReferencesFresh(s: Cluster, e: Event)
    requires UidsFresh(s) && Next(s, e).Some?
    ensures ReferencesFresh(Next(s, e).value)
  {
  }

  /** The part of a definition that no admitted update changes. */
  predicate SameIdentity(a: Def, b: Def) {
    && a.spec.runtimeRef == b.spec.runtimeRef && ParseFlow(a.spec).Some? == ParseFlow(b.spec).Some?
    && (ParseFlow(a.spec).Some? ==> ParseFlow(a.spec).value.name == ParseFlow(b.spec).value.name)
  }

  /** No step changes the incarnation, the runtime or the workflow name of a definition
      that stays. */
  lemma IdentityStays(s: Cluster, e: Event, k: Key)
    requires Next(s, e).Some? && k in s.defs && k in Next(s, e).value.defs
    ensures Next(s, e).value.defs[k].uid == s.defs[k].uid && SameIdentity(s.defs[k], Next(s, e).value.defs[k])
  {
  }

  lemma KeepsJobsAgree(s: Cluster, e: Event)
    requires Inv(s) && Next(s, e).Some?
    ensures JobsAgree(Next(s, e).value)
  {
    forall k | Current(Next(s, e).value, k)
      ensures JobAgrees(Next(s, e).value, k)
    {
      if e == Begin(k) {
        BeginAgrees(s, k);
      } else {
        JobWasThere(s, e, k);
        assert JobAgrees(s, k);
        IdentityStays(s, e, k);
        OnlyPatchRelabels(s, e, k);
      }
    }
  }

  lemma BeginAgrees(s: Cluster, k: Key)
    requires UidsFresh(s) && BeginStep(s, k).Some? && Current(BeginStep(s, k).value, k)
    ensures JobAgrees(BeginStep(s, k).value, k)
  {
    var flow := ParseFlow(s.defs[k].spec).value;
    if LabelsUpToDate(k, s.defs[k], flow) {
      UpToDateIsPublished(k, s.defs[k], flow);
    }
  }

  lemma JobWasThere(s: Cluster, e: Event, k: Key)
    requires UidsFresh(s) && Next(s, e).Some? && e != Begin(k) && Current(Next(s, e).value, k)
    ensures Current(s, k) && e != Patch(k)
    ensures Next(s, e).value.jobs[k].def == s.jobs[k].def && Next(s, e).value.jobs[k].flow == s.jobs[k].flow
    ensures Next(s, e).value.jobs[k].stage.Patching? == s.jobs[k].stage.Patching?
  {
    JobUnchanged(s, e, k);
    if k in s.defs {
      IdentityStays(s, e, k);
    }
  }

  lemma JobUnchanged(s: Cluster, e: Event, k: Key)
    requires Next(s, e).Some? && e != Begin(k) && k in Next(s, e).value.jobs
    ensures k in s.jobs && e != Patch(k)
    ensures Next(s, e).value.jobs[k].def == s.jobs[k].def && Next(s, e).value.jobs[k].flow == s.jobs[k].flow
    ensures Next(s, e).value.jobs[k].stage.Patching? == s.jobs[k].stage.Patching?
  {
  }

  lemma OnlyPatchRelabels(s: Cluster, e: Event, k: Key)
    requires Next(s, e).Some? && e != Patch(k) && k in s.defs && k in Next(s, e).value.defs
    ensures Next(s, e).value.defs[k].labels == s.defs[k].labels
  {
  }

  lemma UpToDateIsPublished(key: Key, def: Def, flow: FlowDoc)
    requires ParseFlow(def.spec) == Some(flow) && key.ns != "" && LabelsUpToDate(key, def, flow)
    ensures Published(key, def)
  {
    var wanted := IdentityLabels(key, def.spec.runtimeRef, flow);
    assert Label(def.labels, WorkflowName) == wanted[WorkflowName];
    assert Label(def.labels, WorkflowNamespace) == wanted[WorkflowNamespace];
  }

  lemma KeepsStaleJobs(s: Cluster, e: Event)
    requires Inv(s) && Next(s, e).Some?
    ensures StaleJobsOwnNothing(Next(s, e).value)
  {
  }

  lemma KeepsConfigMaps(s: Cluster, e: Event)
    requires Inv(s) && Next(s, e).Some?
    ensures ConfigMapsAgree(Next(s, e).value)
  {
    if e.Apply? {
      ApplyKeepsConfigMaps(s, e.key);
    } else {
      var t := Next(s, e).value;
      assert forall c | c in t.configMaps :: c in s.configMaps && t.configMaps[c] == s.configMaps[c];
      forall k | OwnedBy(t, ConfigMapKey(k), k)
        ensures ConfigMapAgrees(t, k)
      {
        OwnerStaysPublished(s, e, k);
      }
    }
  }

  lemma OwnerWasOwner(s: Cluster, e: Event, k: Key)
    requires UidsFresh(s) && !e.Apply? && Next(s, e).Some?
    requires OwnedBy(Next(s, e).value, ConfigMapKey(k), k)
    ensures OwnedBy(s, ConfigMapKey(k), k)
              && Next(s, e).value.configMaps[ConfigMapKey(k)] == s.configMaps[ConfigMapKey(k)]
  {
  }

  /** The owner of a ConfigMap keeps its runtime, its workflow name and its labels. */
  lemma OwnerStaysPublished(s: Cluster, e: Event, k: Key)
    requires Inv(s) && !e.Apply? && Next(s, e).Some?
    requires OwnedBy(Next(s, e).value, ConfigMapKey(k), k)
    ensures ConfigMapAgrees(Next(s, e).value, k)
  {
    OwnerWasOwner(s, e, k);
    IdentityStays(s, e, k);
    assert ConfigMapAgrees(s, k);
    if e == Patch(k) {
      PatchStaysPublished(s, k);
    } else {
      OnlyPatchRelabels(s, e, k);
    }
  }

  lemma PatchStaysPublished(s: Cluster, k: Key)
    requires Inv(s) && PatchStep(s, k).Some? && OwnedBy(s, ConfigMapKey(k), k)
    ensures Published(k, PatchStep(s, k).value.defs[k]) && PatchStep(s, k).value.defs[k].spec == s.defs[k].spec
  {
    assert ConfigMapAgrees(s, k);
    assert Current(s, k);
  }

  lemma ApplyKeepsConfigMaps(s: Cluster, key: Key)
    requires Inv(s) && ApplyStep(s, key).Some?
    ensures ConfigMapsAgree(ApplyStep(s, key).value)
  {
    var t := ApplyStep(s, key).value;
    forall k | OwnedBy(t, ConfigMapKey(k), k)
      ensures ConfigMapAgrees(t, k)
    {
      if k == key {
        assert JobAgrees(s, k);
      } else {
        assert t.configMaps[ConfigMapKey(k)] == s.configMaps[ConfigMapKey(k)];
        assert ConfigMapAgrees(s, k);
      }
    }
  }

  /** The merge patch of a reconcile writes the identity labels that differed when it read
      the definition, and leaves every other label as it is by then. */
  lemma PatchMeaning(s: Cluster, key: Key, l: LabelName)
    requires PatchStep(s, key).Some? && key in s.defs
    ensures var t, job := PatchStep(s, key).value, s.jobs[key];
            var wanted := IdentityLabels(key, job.def.spec.runtimeRef, job.flow);
            && key in t.defs && t == s.(defs := s.defs[key := t.defs[key]], jobs := s.jobs - {key})
            && t.defs[key].uid == s.defs[key].uid && t.defs[key].spec == s.defs[key].spec
            && LabelIn(t.defs[key].labels, l)
               == if IdentityLabel(l) && LabelIn(job.def.labels, l) != LabelIn(wanted, l) then LabelIn(wanted, l)
                  else LabelIn(s.defs[key].labels, l)
  {
  }

  /** Only listing clears a definition, and only a creation makes rivals of a new one. */
  lemma KeepsExclusion(s: Cluster, e: Event)
    requires Inv(s) && Next(s, e).Some?
    ensures RivalsExcluded(Next(s, e).value)
  {
    match e
    case List(key) => ListKeepsExclusion(s, key);
    case _ =>
      var t := Next(s, e).value;
      OnlyListClears(s, e);
      forall a, b | Rivals(t, a, b) && Cleared(t, a) && Cleared(t, b)
        ensures Rivals(s, a, b)
      {
        ClearedPublished(s, a);
        ClearedPublished(s, b);
        WereRivals(s, e, a, b);
      }
  }

  lemma OnlyListClears(s: Cluster, e: Event)
    requires Inv(s) && Next(s, e).Some? && !e.List?
    ensures forall k | Cleared(Next(s, e).value, k) :: Cleared(s, k)
  {
  }

  /** Definitions that were there before a step are rivals after it only if they were. */
  lemma WereRivals(s: Cluster, e: Event, a: Key, b: Key)
    requires Next(s, e).Some? && a in s.defs && b in s.defs && Rivals(Next(s, e).value, a, b)
    ensures Rivals(s, a, b)
  {
    IdentityStays(s, e, a);
    IdentityStays(s, e, b);
  }

  /** The look: a definition that is cleared has its flag up, so a rival sees it. */
  lemma ListKeepsExclusion(s: Cluster, key: Key)
    requires Inv(s) && ListStep(s, key).Some?
    ensures RivalsExcluded(ListStep(s, key).value)
  {
    var t := ListStep(s, key).value;
    forall a, b | Rivals(t, a, b)
      ensures !(Cleared(t, a) && Cleared(t, b))
    {
      assert Rivals(s, a, b);
      if key in t.jobs && Current(s, key) {
        if a == key {
          ListedRivalNotCleared(s, key, b);
        } else if b == key {
          ListedRivalNotCleared(s, key, a);
        }
      }
    }
  }

  lemma ListedRivalNotCleared(s: Cluster, key: Key, k: Key)
    requires Inv(s) && Current(s, key) && s.jobs[key].stage.Listing?
    requires !HasConflict(s.defs, key, s.jobs[key].def.spec.runtimeRef, s.jobs[key].flow.name)
    requires Rivals(s, key, k) || Rivals(s, k, key)
    ensures !Cleared(s, k)
  {
  }

  lemma {:induction false} RunKeepsInv(s: Cluster, events: seq<Event>)
    requires Inv(s) && Run(s, events).Some?
    ensures Inv(Run(s, events).value)
    decreases |events|
  {
    if events != [] {
      StepKeepsInv(s, events[0]);
      RunKeepsInv(Next(s, events[0]).value, events[1..]);
    }
  }

  lemma {:induction false} RunKeepsUidsFresh(s: Cluster, events: seq<Event>)
    requires UidsFresh(s) && Run(s, events).Some?
    ensures UidsFresh(Run(s, events).value)
    decreases |events|
  {
    if events != [] {
      KeepsUidsFresh(s, events[0]);
      RunKeepsUidsFresh(Next(s, events[0]).value, events[1..]);
    }
  }

  lemma ReachedInv(s: Cluster)
    requires Reached(s)
    ensures Inv(s)
  {
    var events :| Run(EMPTY, events) == Some(s);
    RunKeepsInv(EMPTY, events);
  }

  // ---------- Safety over every run

  /** Rivals never both own a ConfigMap. */
  lemma RivalsNeverBothOwn(s: Cluster, a: Key, b: Key)
    requires Reached(s) && Rivals(s, a, b)
    ensures !(Owns(s, a) && Owns(s, b))
  {
    ReachedInv(s);
  }

  // ---------- The webhook's share

  /** A definition of a later state is either a younger incarnation, or one of the earlier
      state with its identity. */
  ghost predicate DescendsAt(s: Cluster, t: Cluster, k: Key) {
    k in t.defs ==>
      || t.defs[k].uid >= s.nextUid
      || (k in s.defs && s.defs[k].uid == t.defs[k].uid && SameIdentity(s.defs[k], t.defs[k]))
  }

  lemma StepDescends(s: Cluster, e: Event, k: Key)
    requires Next(s, e).Some?
    ensures DescendsAt(s, Next(s, e).value, k)
    ensures s.nextUid <= Next(s, e).value.nextUid && (!e.Create? ==> s.nextUid == Next(s, e).value.nextUid)
  {
    if k in s.defs && k in Next(s, e).value.defs {
      IdentityStays(s, e, k);
    }
  }

  lemma {:induction false} RunDescends(s: Cluster, events: seq<Event>, k: Key)
    requires Run(s, events).Some?
    ensures var t := Run(s, events).value;
            && DescendsAt(s, t, k) && s.nextUid <= t.nextUid
            && ((forall e | e in events :: !e.Create?) ==> s.nextUid == t.nextUid)
    decreases |events|
  {
    if events != [] {
      assert events[0] in events;
      StepDescends(s, events[0], k);
      RunDescends(Next(s, events[0]).value, events[1..], k);
    }
  }

  /** The webhook lists and admits, other events follow, and the creation is written. */
  ghost function Written(listed: Cluster, r: Request, events: seq<Event>): Option<Cluster> {
    match Next(listed, Admit(r))
    case None => None
    case Some(s) =>
      match Run(s, events)
      case None => None
      case Some(before) => Next(before, Create(r))
  }

  lemma WrittenDescends(listed: Cluster, r: Request, events: seq<Event>, k: Key)
    requires Written(listed, r, events).Some? && k != r.key
    ensures var t := Written(listed, r, events).value;
            && DescendsAt(listed, t, k)
            && (UidsFresh(listed) && (forall e | e in events :: !e.Create?) && k in t.defs ==>
                  k in listed.defs && listed.defs[k].uid == t.defs[k].uid && SameIdentity(listed.defs[k], t.defs[k]))
  {
    var s := Next(listed, Admit(r)).value;
    var before := Run(s, events).value;
    RunDescends(s, events, k);
    if UidsFresh(listed) {
      RunKeepsUidsFresh(s, events);
    }
    assert k in before.defs <==> k in Next(before, Create(r)).value.defs;
  }

  /** The definition was there, with its labels up, when the webhook listed. */
  ghost predicate SeenByWebhook(listed: Cluster, t: Cluster, k: Key) {
    && k in listed.defs && k in t.defs && listed.defs[k].uid == t.defs[k].uid
    && Published(k, listed.defs[k])
  }

  /** Whatever happens between the webhook's list and the write: a definition that the
      webhook could see is no rival of the new one. */
  lemma SeenIsNoRival(listed: Cluster, r: Request, events: seq<Event>, k: Key)
    requires UidsFresh(listed) && Written(listed, r, events).Some?
    requires SeenByWebhook(listed, Written(listed, r, events).value, k)
    ensures var t := Written(listed, r, events).value;
            r.key in t.defs && !Rivals(t, r.key, k) && !Rivals(t, k, r.key)
  {
    var t := Written(listed, r, events).value;
    assert t.defs[r.key].spec == r.spec;
    if k != r.key && k.ns == r.key.ns {
      WrittenDescends(listed, r, events, k);
      assert SameIdentity(listed.defs[k], t.defs[k]);
    }
  }

  /** Only a creation makes rivals. */
  lemma OnlyCreationMakesRivals(s: Cluster, events: seq<Event>, a: Key, b: Key)
    requires UidsFresh(s) && Run(s, events).Some? && forall e | e in events :: !e.Create?
    requires Rivals(Run(s, events).value, a, b)
    ensures Rivals(s, a, b)
  {
    RunKeepsUidsFresh(s, events);
    RunDescends(s, events, a);
    RunDescends(s, events, b);
  }

  /** The webhook could not see the definition: it was created later, or its labels were
      not up when the webhook listed. */
  ghost predicate Unseen(listed: Cluster, t: Cluster, k: Key)
    requires k in t.defs
  {
    t.defs[k].uid >= listed.nextUid || (k in listed.defs && !Published(k, listed.defs[k]))
  }

  /** Whatever happens between the list and the write, the rivals of the new definition
      are exactly the definitions of its workflow on another runtime that the webhook
      could not see. */
  lemma NewRivalIff(listed: Cluster, r: Request, events: seq<Event>, k: Key)
    requires UidsFresh(listed) && Written(listed, r, events).Some? && k != r.key
    ensures var t := Written(listed, r, events).value;
            Rivals(t, r.key, k)
            <==> k in t.defs && k.ns == r.key.ns && OtherRuntime(t.defs[k].spec, r.spec) && Unseen(listed, t, k)
  {
    var t := Written(listed, r, events).value;
    assert t.defs[r.key].spec == r.spec;
    WrittenDescends(listed, r, events, k);
    if Rivals(t, r.key, k) && !Unseen(listed, t, k) {
      SeenIsNoRival(listed, r, events, k);
    }
  }

  /** The request is for a definition of that workflow on another runtime. */
  predicate Conflicts(q: Request, r: Request) {
    q.key.ns == r.key.ns && OtherRuntime(q.spec, r.spec)
  }

  /** The events write no creation that conflicts with the request. */
  ghost predicate NoConflictingCreation(events: seq<Event>, r: Request) {
    forall e | e in events && e.Create? :: !Conflicts(e.request, r)
  }

  /** A definition of the request's workflow on another runtime is no younger than uid n. */
  ghost predicate OldAt(s: Cluster, r: Request, n: nat, k: Key) {
    k in s.defs && k.ns == r.key.ns && OtherRuntime(s.defs[k].spec, r.spec) ==> s.defs[k].uid < n
  }

  lemma StepKeepsOld(s: Cluster, e: Event, r: Request, n: nat, k: Key)
    requires Next(s, e).Some? && OldAt(s, r, n, k) && (e.Create? ==> !Conflicts(e.request, r))
    ensures OldAt(Next(s, e).value, r, n, k)
  {
    if k in s.defs && k in Next(s, e).value.defs {
      IdentityStays(s, e, k);
    }
  }

  lemma {:induction false} RunKeepsOld(s: Cluster, events: seq<Event>, r: Request, n: nat, k: Key)
    requires Run(s, events).Some? && OldAt(s, r, n, k) && NoConflictingCreation(events, r)
    ensures OldAt(Run(s, events).value, r, n, k)
    decreases |events|
  {
    if events != [] {
      assert events[0] in events;
      StepKeepsOld(s, events[0], r, n, k);
      RunKeepsOld(Next(s, events[0]).value, events[1..], r, n, k);
    }
  }

  /** The incarnation that the webhook met is still there. */
  ghost predicate Remains(listed: Cluster, t: Cluster, k: Key) {
    k in listed.defs && k in t.defs && t.defs[k].uid == listed.defs[k].uid
  }

  /** When no conflicting creation is written in between, the rivals can be read off the
      moment of the list: they are exactly the definitions of the workflow on another
      runtime that were there, with their labels not up, and remain. */
  lemma AdmittedRivalIff(listed: Cluster, r: Request, events: seq<Event>, k: Key)
    requires UidsFresh(listed) && Written(listed, r, events).Some? && k != r.key && NoConflictingCreation(events, r)
    ensures var t := Written(listed, r, events).value;
            Rivals(t, r.key, k)
            <==> Remains(listed, t, k) && k.ns == r.key.ns && OtherRuntime(listed.defs[k].spec, r.spec)
    ensures Rivals(Written(listed, r, events).value, r.key, k) ==> !Published(k, listed.defs[k])
  {
    var s := Next(listed, Admit(r)).value;
    var before := Run(s, events).value;
    NewRivalIff(listed, r, events, k);
    WrittenDescends(listed, r, events, k);
    RunKeepsOld(s, events, r, listed.nextUid, k);
    assert k in before.defs <==> k in Next(before, Create(r)).value.defs;
    if Remains(listed, Next(before, Create(r)).value, k) && Published(k, listed.defs[k]) {
      SeenIsNoRival(listed, r, events, k);
    }
  }

  /** Hence an admitted creation makes no rivals when the definitions of its workflow on
      other runtimes have their labels up and no conflicting creation is written between
      the webhook's list and the write; other workflows and namespaces do not matter.
      Without any creation in between it leaves only what rivals there were. */
  lemma AdmissionExcludesRivals(listed: Cluster, r: Request, events: seq<Event>, a: Key, b: Key)
    requires Reached(listed) && Written(listed, r, events).Some? && NoConflictingCreation(events, r)
    requires forall k | k in listed.defs && k.ns == r.key.ns && OtherRuntime(listed.defs[k].spec, r.spec) ::
               Published(k, listed.defs[k])
    requires Rivals(Written(listed, r, events).value, a, b)
    ensures a != r.key && b != r.key
    ensures (forall e | e in events :: !e.Create?) ==> Rivals(listed, a, b)
  {
    ReachedInv(listed);
    if a == r.key {
      AdmittedRivalIff(listed, r, events, b);
    } else if b == r.key {
      assert Rivals(Written(listed, r, events).value, b, a);
      AdmittedRivalIff(listed, r, events, a);
    } else {
      WrittenDescends(listed, r, events, a);
      WrittenDescends(listed, r, events, b);
    }
  }

  lemma RunFirst(s: Cluster, e: Event, rest: seq<Event>)
    requires Next(s, e).Some?
    ensures Run(s, [e] + rest) == Run(Next(s, e).value, rest)
  {
  }

  /** The gap is real: two creations for different runtimes, both admitted before either
      is written, make rivals from any state. */
  lemma TwoAdmissionsMakeRivals(s: Cluster, a: Request, b: Request)
    requires a.key != b.key && a.key.ns == b.key.ns != "" && a.key !in s.defs && b.key !in s.defs
    requires ValidateCreate(s.defs, a.key, a.spec).Admitted? && ValidateCreate(s.defs, b.key, b.spec).Admitted?
    requires OtherRuntime(a.spec, b.spec)
    ensures var t := Run(s, [Admit(a)] + ([Admit(b)] + ([Create(a)] + [Create(b)])));
            t.Some? && Rivals(t.value, a.key, b.key)
  {
    var s1 := Next(s, Admit(a)).value;
    var s2 := Next(s1, Admit(b)).value;
    var s3 := Next(s2, Create(a)).value;
    RunFirst(s, Admit(a), [Admit(b)] + ([Create(a)] + [Create(b)]));
    RunFirst(s1, Admit(b), [Create(a)] + [Create(b)]);
    RunFirst(s2, Create(a), [Create(b)]);
    assert b in s3.admitted;
    assert [Create(b)] + [] == [Create(b)];
    RunFirst(s3, Create(b), []);
  }

  /** The state right after an admitted creation is written. */
  function AfterCreation(s: Cluster, r: Request): Cluster {
    s.(defs := s.defs[r.key := Def(s.nextUid, r.spec, r.labels)], nextUid := s.nextUid + 1)
  }

  lemma CreationRun(s: Cluster, r: Request)
    requires r.key.ns != "" && r.key !in s.defs && ValidateCreate(s.defs, r.key, r.spec).Admitted?
    ensures Run(s, [Admit(r)] + [Create(r)]) == Some(AfterCreation(s, r))
  {
    var s1 := Next(s, Admit(r)).value;
    assert s1.admitted - multiset{r} == s.admitted;
    RunFirst(s, Admit(r), [Create(r)]);
    assert [Create(r)] + [] == [Create(r)];
    RunFirst(s1, Create(r), []);
  }

  /** Nor are labels up at once: of two creations for different runtimes, the second is
      admitted after the first is written exactly when that has not its labels up yet,
      and then the two are rivals. */
  lemma UnpublishedSiblingMakesRival(s: Cluster, a: Request, b: Request)
    requires a.key != b.key && a.key.ns == b.key.ns != "" && a.key !in s.defs && b.key !in s.defs
    requires ValidateCreate(s.defs, b.key, b.spec).Admitted? && OtherRuntime(a.spec, b.spec)
    ensures var t := AfterCreation(s, a);
            && (ValidateCreate(s.defs, a.key, a.spec).Admitted? ==> Run(s, [Admit(a)] + [Create(a)]) == Some(t))
            && (ValidateCreate(t.defs, b.key, b.spec).Admitted? <==> !Published(a.key, t.defs[a.key]))
            && (!Published(a.key, t.defs[a.key]) ==>
                  Run(t, [Admit(b)] + [Create(b)]) == Some(AfterCreation(t, b))
                  && Rivals(AfterCreation(t, b), a.key, b.key))
  {
    var t := AfterCreation(s, a);
    if ValidateCreate(s.defs, a.key, a.spec).Admitted? {
      CreationRun(s, a);
    }
    if !Published(a.key, t.defs[a.key]) {
      forall k | k in t.defs && k != a.key
        ensures k in s.defs && t.defs[k] == s.defs[k]
      {
      }
      CreationRun(t, b);
    }
  }

  /** listConfigMaps of the runtime controller. */
  predicate Listed(s: Cluster, ns: string, runtime: string, c: Key) {
    && c in s.configMaps && c.ns == ns
    && RuntimeRef in s.configMaps[c].labels && s.configMaps[c].labels[RuntimeRef] == runtime
  }

  /** Two runtimes of a namespace never list one workflow from live ConfigMaps. */
  lemma OneRuntimePerWorkflow(s: Cluster, ns: string, r1: string, c1: Key, r2: string, c2: Key)
    requires Reached(s)
    requires Listed(s, ns, r1, c1) && Live(s, c1) && Listed(s, ns, r2, c2) && Live(s, c2)
    requires Label(s.configMaps[c1].labels, WorkflowName) == Label(s.configMaps[c2].labels, WorkflowName)
    ensures r1 == r2
  {
    ReachedInv(s);
    var a, b := OwnerKey(s, c1), OwnerKey(s, c2);
    assert Cleared(s, a) && Cleared(s, b);
    assert !Rivals(s, a, b);
  }
}
