/** One whole reconcile of a LogicFlowDefinition without interference: what it does when
    any of its API calls may fail, that it is a run of the ownership protocol, and that
    two passes settle everything. */
module DefinitionReconciler {
  import opened Definitions
  import opened Kubernetes
  import opened OwnershipProtocol
  import opened Wrappers

  datatype Condition = FlowParsed | ConfigMapReady | RuntimeRefValid | RuntimeConsistent

  /** Condition statuses, and the workflow identity last reported. */
  datatype Status = Status(conditions: map<Condition, bool>, flow: Option<FlowDoc>)

  datatype World = World(
    defs: map<Key, Def>,
    configMaps: map<Key, ConfigMap>,
    statuses: map<Key, Status>,
    runtimes: set<Key>)

  function StatusOf(w: World, key: Key): Status {
    if key in w.statuses then w.statuses[key] else Status(map[], None)
  }

  /** The API calls of a reconcile that fail, by what they ask for; not finding the
      definition or its runtime is no failure. */
  datatype Call = GetDefinition | WriteLabels | ListSiblings | ApplyConfigMap | GetRuntime | WriteStatus
  type Faults = set<Call>

  function WithStatus(w: World, key: Key, status: Status, faults: Faults): World {
    if WriteStatus in faults then w else w.(statuses := w.statuses[key := status])
  }

  function Labelled(w: World, key: Key, flow: FlowDoc): World
    requires key in w.defs
  {
    var def := w.defs[key];
    w.(defs := w.defs[key := def.(labels := def.labels + IdentityLabels(key, def.spec.runtimeRef, flow))])
  }

  function Applied(w: World, key: Key, flow: FlowDoc, faults: Faults): World
    requires key in w.defs
  {
    if HasConflict(w.defs, key, w.defs[key].spec.runtimeRef, flow.name) || ApplyConfigMap in faults then w
    else w.(configMaps := w.configMaps[ConfigMapKey(key) := BuildConfigMap(key, w.defs[key], flow)])
  }

  /** The conditions a reconcile reports once the labels are published. */
  function Report(w: World, key: Key, def: Def, flow: FlowDoc, applied: bool): Status {
    var conflict := HasConflict(w.defs, key, def.spec.runtimeRef, flow.name);
    var conditions := StatusOf(w, key).conditions
                        [FlowParsed := true]
                        [RuntimeConsistent := !conflict]
                        [RuntimeRefValid := Key(key.ns, def.spec.runtimeRef) in w.runtimes];
    Status(if conflict then conditions else conditions[ConfigMapReady := applied], Some(flow))
  }

  /** The part of a reconcile that finds the labels in place. */
  function AfterLabels(w: World, key: Key, flow: FlowDoc, faults: Faults): World
    requires key in w.defs
  {
    if ListSiblings in faults then w
    else
      var applied := Applied(w, key, flow, faults);
      if GetRuntime in faults then applied
      else WithStatus(applied, key, Report(w, key, w.defs[key], flow, ApplyConfigMap !in faults), faults)
  }

  function Reconciled(w: World, key: Key, faults: Faults): World {
    if GetDefinition in faults || key !in w.defs then w
    else
      var def, status := w.defs[key], StatusOf(w, key);
      match ParseFlow(def.spec)
      case None => WithStatus(w, key, status.(conditions := status.conditions[FlowParsed := false]), faults)
      case Some(flow) =>
        if !LabelsUpToDate(key, def, flow) then
          if WriteLabels in faults then w
          else WithStatus(Labelled(w, key, flow), key,
                          Status(status.conditions[FlowParsed := true], Some(flow)), faults)
        else AfterLabels(w, key, flow, faults)
  }

  /** The calls that a reconcile makes and whose failure it returns. A failing Apply goes
      into the status instead. */
  function Returned(w: World, key: Key): Faults {
    if key !in w.defs then {GetDefinition}
    else match ParseFlow(w.defs[key].spec)
         case None => {GetDefinition, WriteStatus}
         case Some(flow) =>
           if !LabelsUpToDate(key, w.defs[key], flow) then {GetDefinition, WriteLabels, WriteStatus}
           else {GetDefinition, ListSiblings, GetRuntime, WriteStatus}
  }

  // ---------- What one reconcile does, field by field

  function ConditionIn(w: World, key: Key, c: Condition): Option<bool> {
    var conditions := StatusOf(w, key).conditions;
    if c in conditions then Some(conditions[c]) else None
  }

  predicate SameConditions(w: World, w': World, key: Key, except: set<Condition>) {
    && (FlowParsed !in except ==> ConditionIn(w', key, FlowParsed) == ConditionIn(w, key, FlowParsed))
    && (ConfigMapReady !in except ==> ConditionIn(w', key, ConfigMapReady) == ConditionIn(w, key, ConfigMapReady))
    && (RuntimeRefValid !in except ==> ConditionIn(w', key, RuntimeRefValid) == ConditionIn(w, key, RuntimeRefValid))
    && (RuntimeConsistent !in except ==>
          ConditionIn(w', key, RuntimeConsistent) == ConditionIn(w, key, RuntimeConsistent))
  }

  /** The labels are in place when the reconcile reads the definition. */
  predicate Ready(w: World, key: Key) {
    key in w.defs && Parses(w.defs[key].spec) && LabelsUpToDate(key, w.defs[key], w.defs[key].spec.flow.value)
  }

  predicate Conflicted(w: World, key: Key)
    requires key in w.defs && Parses(w.defs[key].spec)
  {
    exists k :: && k in w.defs && k.ns == key.ns && k.name != key.name
                && LabelIn(w.defs[k].labels, WorkflowName) == Some(w.defs[key].spec.flow.value.name)
                && LabelIn(w.defs[k].labels, WorkflowNamespace) == Some(key.ns)
                && w.defs[k].spec.runtimeRef != w.defs[key].spec.runtimeRef
  }

  /** Whose failure ends the reconcile before it reports. */
  function BeforeReport(w: World, key: Key): Faults {
    if key !in w.defs || !Parses(w.defs[key].spec) then {GetDefinition}
    else if Ready(w, key) then {GetDefinition, ListSiblings, GetRuntime}
    else {GetDefinition, WriteLabels}
  }

  /** What is reported, and that nothing is when a call before it fails. */
  ghost predicate ReportsStatus(w: World, w': World, key: Key, faults: Faults) {
    if key !in w.defs || !(faults !! BeforeReport(w, key) + {WriteStatus}) then w'.statuses == w.statuses
    else
      var spec := w.defs[key].spec;
      && key in w'.statuses
      && ConditionIn(w', key, FlowParsed) == Some(Parses(spec))
      && StatusOf(w', key).flow == (if Parses(spec) then Some(spec.flow.value) else StatusOf(w, key).flow)
      && if !Ready(w, key) then SameConditions(w, w', key, {FlowParsed})
         else
           && ConditionIn(w', key, RuntimeRefValid) == Some(Key(key.ns, spec.runtimeRef) in w.runtimes)
           && ConditionIn(w', key, RuntimeConsistent) == Some(!Conflicted(w, key))
           && ConditionIn(w', key, ConfigMapReady)
              == (if Conflicted(w, key) then ConditionIn(w, key, ConfigMapReady) else Some(ApplyConfigMap !in faults))
  }

  lemma ReconcileReports(w: World, key: Key, faults: Faults)
    ensures ReportsStatus(w, Reconciled(w, key, faults), key, faults)
  {
    if key in w.defs && faults !! BeforeReport(w, key) + {WriteStatus} {
      assert GetDefinition !in faults && WriteStatus !in faults;
      if Parses(w.defs[key].spec) {
        ConflictedIff(w, key);
        if Ready(w, key) {
          assert ListSiblings !in faults && GetRuntime !in faults;
        } else {
          assert WriteLabels !in faults;
        }
      }
    }
  }

  lemma ConflictedIff(w: World, key: Key)
    requires key in w.defs && Parses(w.defs[key].spec)
    ensures Conflicted(w, key)
        <==> HasConflict(w.defs, key, w.defs[key].spec.runtimeRef, w.defs[key].spec.flow.value.name)
  {
  }

  /** The labels are written exactly when they are not in place and no call before that
      fails, and then only they. */
  ghost predicate WritesLabels(w: World, w': World, key: Key, faults: Faults) {
    if key in w.defs && Parses(w.defs[key].spec) && !Ready(w, key) && faults !! {GetDefinition, WriteLabels}
    then key in w'.defs && w'.defs == w.defs[key := w'.defs[key]]
         && Ready(w', key) && OnlyIdentityLabels(w.defs[key], w'.defs[key])
    else w'.defs == w.defs
  }

  /** The ConfigMap is applied exactly when the labels are in place, no sibling conflicts
      and no call before that fails. */
  ghost predicate WritesConfigMap(w: World, w': World, key: Key, faults: Faults) {
    if Ready(w, key) && !Conflicted(w, key) && faults !! {GetDefinition, ListSiblings, ApplyConfigMap}
    then ConfigMapKey(key) in w'.configMaps
         && w'.configMaps == w.configMaps[ConfigMapKey(key) := w'.configMaps[ConfigMapKey(key)]]
         && Publishes(w'.configMaps[ConfigMapKey(key)], key, w.defs[key], w.defs[key].spec.flow.value)
         && CarriesLabels(w'.configMaps[ConfigMapKey(key)], w.defs[key])
    else w'.configMaps == w.configMaps
  }

  ghost predicate CarriesLabels(cm: ConfigMap, def: Def) {
    forall name :: LabelIn(cm.labels, Other(name)) == LabelIn(def.labels, Other(name))
  }

  ghost predicate LeavesOthers(w: World, w': World, key: Key) {
    && w'.runtimes == w.runtimes
    && forall k | k != key :: (k in w'.statuses <==> k in w.statuses) && StatusOf(w', k) == StatusOf(w, k)
  }

  ghost predicate OnlyIdentityLabels(before: Def, after: Def) {
    && after.uid == before.uid && after.spec == before.spec
    && forall l | !IdentityLabel(l) :: LabelIn(after.labels, l) == LabelIn(before.labels, l)
  }

  /** The ConfigMap carries the definition's identity and flow, and belongs to it. */
  predicate Publishes(cm: ConfigMap, key: Key, def: Def, flow: FlowDoc) {
    && cm.owner == OwnerRef(key.name, def.uid) && cm.flow == flow
    && Label(cm.labels, WorkflowName) == flow.name && Label(cm.labels, WorkflowVersion) == flow.version
    && Label(cm.labels, WorkflowNamespace) == key.ns && Label(cm.labels, RuntimeRef) == def.spec.runtimeRef
  }

  lemma ReconcileWritesLabels(w: World, key: Key, faults: Faults)
    ensures WritesLabels(w, Reconciled(w, key, faults), key, faults)
  {
    if key in w.defs && Parses(w.defs[key].spec) && !Ready(w, key) && faults !! {GetDefinition, WriteLabels} {
      assert GetDefinition !in faults && WriteLabels !in faults;
      LabelledIsReady(w, key, w.defs[key].spec.flow.value);
    }
  }

  lemma ReconciledConfigMaps(w: World, key: Key, faults: Faults)
    requires Ready(w, key)
    ensures Reconciled(w, key, faults).configMaps
         == if GetDefinition in faults || ListSiblings in faults then w.configMaps
            else Applied(w, key, w.defs[key].spec.flow.value, faults).configMaps
  {
  }

  lemma ReconcileWritesConfigMap(w: World, key: Key, faults: Faults)
    ensures WritesConfigMap(w, Reconciled(w, key, faults), key, faults)
  {
    if Ready(w, key) {
      ConflictedIff(w, key);
      ReconciledConfigMaps(w, key, faults);
      ConfigMapContents(key, w.defs[key], w.defs[key].spec.flow.value);
      assert faults !! {GetDefinition, ListSiblings, ApplyConfigMap}
        <==> GetDefinition !in faults && ListSiblings !in faults && ApplyConfigMap !in faults;
    } else {
      UnreadyAppliesNothing(w, key, faults);
    }
  }

  lemma UnreadyAppliesNothing(w: World, key: Key, faults: Faults)
    requires !Ready(w, key)
    ensures Reconciled(w, key, faults).configMaps == w.configMaps
  {
  }

  lemma ReconcileLeavesOthers(w: World, key: Key, faults: Faults)
    ensures LeavesOthers(w, Reconciled(w, key, faults), key)
  {
  }

  lemma LabelledIsReady(w: World, key: Key, flow: FlowDoc)
    requires key in w.defs && Parses(w.defs[key].spec) && flow == w.defs[key].spec.flow.value
    ensures Ready(Labelled(w, key, flow), key)
    ensures OnlyIdentityLabels(w.defs[key], Labelled(w, key, flow).defs[key])
  {
  }

  /** An error is returned only after a failing call other than the Apply, and without one
      nothing but the Apply was skipped. */
  lemma SuccessIsComplete(w: World, key: Key, faults: Faults)
    ensures faults <= {ApplyConfigMap} ==> faults !! Returned(w, key)
    ensures faults !! Returned(w, key) ==> Reconciled(w, key, faults) == Reconciled(w, key, faults * {ApplyConfigMap})
  {
  }

  class Reconciler {
    var defs: map<Key, Def>
    var configMaps: map<Key, ConfigMap>
    var statuses: map<Key, Status>
    var runtimes: set<Key>

    constructor (w: World)
      ensures Contents() == w
    {
      defs, configMaps, statuses, runtimes := w.defs, w.configMaps, w.statuses, w.runtimes;
    }

    ghost function Contents(): World
      reads this
    {
      World(defs, configMaps, statuses, runtimes)
    }

    /** Writes the labels only when one of them differs. */
    method UpdateFlowIDLabels(key: Key, flow: FlowDoc, faults: Faults) returns (changed: bool, ok: bool)
      requires key in defs
      modifies this`defs
      ensures ok == (LabelsUpToDate(key, old(defs)[key], flow) || WriteLabels !in faults)
      ensures changed == (!LabelsUpToDate(key, old(defs)[key], flow) && ok)
      ensures Contents() == if changed then Labelled(old(Contents()), key, flow) else old(Contents())
    {
      var def := defs[key];
      var wanted := IdentityLabels(key, def.spec.runtimeRef, flow);
      if && Label(def.labels, WorkflowName) == wanted[WorkflowName]
         && Label(def.labels, WorkflowVersion) == wanted[WorkflowVersion]
         && Label(def.labels, WorkflowNamespace) == wanted[WorkflowNamespace]
         && Label(def.labels, RuntimeRef) == wanted[RuntimeRef]
      {
        return false, true;
      }
      var labels := def.labels[WorkflowName := flow.name][WorkflowVersion := flow.version]
                              [WorkflowNamespace := key.ns][RuntimeRef := def.spec.runtimeRef];
      assert labels == def.labels + wanted;
      if WriteLabels in faults {
        return false, false;
      }
      defs := defs[key := def.(labels := labels)];
      return true, true;
    }

    /** Goes through the listed siblings, in any order, up to the first disagreement. */
    method CheckRuntimeConsistency(key: Key, runtimeRef: string, workflow: string, faults: Faults)
      returns (conflict: bool, ok: bool)
      ensures ok == (ListSiblings !in faults)
      ensures conflict == (ok && HasConflict(defs, key, runtimeRef, workflow))
    {
      if ListSiblings in faults {
        return false, false;
      }
      var siblings := set k | k in defs && k.ns == key.ns && Selected(defs[k].labels, key.ns, workflow);
      while siblings != {}
        invariant forall k | k in siblings :: k in defs && k.ns == key.ns && Selected(defs[k].labels, key.ns, workflow)
        invariant forall k | k in defs && k.ns == key.ns && Selected(defs[k].labels, key.ns, workflow) ::
            k in siblings || k.name == key.name || defs[k].spec.runtimeRef == runtimeRef
      {
        var k :| k in siblings;
        siblings := siblings - {k};
        if k.name == key.name {
          continue;
        }
        if defs[k].spec.runtimeRef != runtimeRef {
          return true, true;
        }
      }
      return false, true;
    }

    method UpdateStatus(key: Key, status: Status, faults: Faults) returns (ok: bool)
      modifies this`statuses
      ensures ok == (WriteStatus !in faults)
      ensures Contents() == WithStatus(old(Contents()), key, status, faults)
    {
      if WriteStatus in faults {
        return false;
      }
      statuses := statuses[key := status];
      return true;
    }

    /** Lists, applies, looks for the runtime and reports, with the labels in place. */
    method ReconcileLabelled(key: Key, flow: FlowDoc, parsed: Status, faults: Faults) returns (ok: bool)
      requires key in defs
      requires parsed == Status(StatusOf(Contents(), key).conditions[FlowParsed := true], Some(flow))
      modifies this`configMaps, this`statuses
      ensures Contents() == AfterLabels(old(Contents()), key, flow, faults)
      ensures ok == (faults !! {ListSiblings, GetRuntime, WriteStatus})
    {
      ghost var w := Contents();
      var def, status := defs[key], parsed;
      var conflict, listed := CheckRuntimeConsistency(key, def.spec.runtimeRef, flow.name, faults);
      if !listed {
        return false;
      }
      status := status.(conditions := status.conditions[RuntimeConsistent := !conflict]);
      if !conflict {
        if ApplyConfigMap !in faults {
          configMaps := configMaps[ConfigMapKey(key) := BuildConfigMap(key, def, flow)];
        }
        status := status.(conditions := status.conditions[ConfigMapReady := ApplyConfigMap !in faults]);
      }
      assert Contents() == Applied(w, key, flow, faults);
      if GetRuntime in faults {
        return false;
      }
      var found := Key(key.ns, def.spec.runtimeRef) in runtimes;
      status := status.(conditions := status.conditions[RuntimeRefValid := found]);
      assert status == Report(w, key, def, flow, ApplyConfigMap !in faults);
      ok := UpdateStatus(key, status, faults);
    }

    method Reconcile(key: Key, faults: Faults) returns (ok: bool)
      modifies this
      ensures Contents() == Reconciled(old(Contents()), key, faults)
      ensures ReportsStatus(old(Contents()), Contents(), key, faults)
      ensures WritesLabels(old(Contents()), Contents(), key, faults)
      ensures WritesConfigMap(old(Contents()), Contents(), key, faults)
      ensures LeavesOthers(old(Contents()), Contents(), key)
      ensures ok == (faults !! Returned(old(Contents()), key))
      ensures faults <= {ApplyConfigMap} ==> ok
    {
      ReconcileReports(Contents(), key, faults);
      ReconcileWritesLabels(Contents(), key, faults);
      ReconcileWritesConfigMap(Contents(), key, faults);
      ReconcileLeavesOthers(Contents(), key, faults);
      SuccessIsComplete(Contents(), key, faults);
      if GetDefinition in faults {
        return false;
      }
      if key !in defs {
        return true;
      }
      var status := if key in statuses then statuses[key] else Status(map[], None);
      var parsed := ParseFlow(defs[key].spec);
      if parsed.None? {
        ok := UpdateStatus(key, status.(conditions := status.conditions[FlowParsed := false]), faults);
        return;
      }
      var flow := parsed.value;
      status := Status(status.conditions[FlowParsed := true], Some(flow));
      var changed, patched := UpdateFlowIDLabels(key, flow, faults);
      if !patched {
        return false;
      }
      if changed {
        ok := UpdateStatus(key, status, faults);
        return;
      }
      ok := ReconcileLabelled(key, flow, status, faults);
    }
  }

  // ---------- A whole reconcile is a run of the protocol

  /** The protocol steps of one undisturbed reconcile. */
  function Steps(s: Cluster, key: Key, faults: Faults): seq<Event> {
    if GetDefinition in faults then []
    else if key !in s.defs || ParseFlow(s.defs[key].spec).None? then [Begin(key)]
    else
      var def := s.defs[key];
      var flow := ParseFlow(def.spec).value;
      if !LabelsUpToDate(key, def, flow) then
        [Begin(key), if WriteLabels in faults then Abort(key) else Patch(key)]
      else if ListSiblings in faults then [Begin(key), Abort(key)]
      else if HasConflict(s.defs, key, def.spec.runtimeRef, flow.name) then [Begin(key), List(key)]
      else [Begin(key), List(key), if ApplyConfigMap in faults then Abort(key) else Apply(key)]
  }

  lemma RunTwo(s: Cluster, a: Event, b: Event)
    requires Next(s, a).Some? && Next(Next(s, a).value, b).Some?
    ensures Run(s, [a, b]) == Next(Next(s, a).value, b)
  {
    var t := Next(s, a).value;
    assert [a, b] == [a] + [b] && [b] == [b] + [];
    RunFirst(s, a, [b]);
    RunFirst(t, b, []);
  }

  /** The run gives the jobs back and leaves the definitions and ConfigMaps of a world. */
  ghost predicate RunsTo(s: Cluster, events: seq<Event>, w: World) {
    Run(s, events) == Some(s.(defs := w.defs, configMaps := w.configMaps))
  }

  lemma ReconcileIsProtocolRun(s: Cluster, w: World, key: Key, faults: Faults)
    requires key !in s.jobs && w.defs == s.defs && w.configMaps == s.configMaps
    ensures RunsTo(s, Steps(s, key, faults), Reconciled(w, key, faults))
  {
    if GetDefinition in faults {
    } else if key !in s.defs || ParseFlow(s.defs[key].spec).None? {
      assert [Begin(key)] == [Begin(key)] + [];
      RunFirst(s, Begin(key), []);
    } else {
      var flow := ParseFlow(s.defs[key].spec).value;
      if !LabelsUpToDate(key, s.defs[key], flow) {
        PatchRun(s, w, key, flow, faults);
      } else {
        ListRun(s, w, key, flow, faults);
      }
    }
  }

  lemma PatchRun(s: Cluster, w: World, key: Key, flow: FlowDoc, faults: Faults)
    requires key !in s.jobs && key in s.defs && ParseFlow(s.defs[key].spec) == Some(flow)
    requires !LabelsUpToDate(key, s.defs[key], flow) && w.defs == s.defs && w.configMaps == s.configMaps
    ensures RunsTo(s, [Begin(key), if WriteLabels in faults then Abort(key) else Patch(key)],
                   if WriteLabels in faults then w else Labelled(w, key, flow))
  {
    var def := s.defs[key];
    var wanted := IdentityLabels(key, def.spec.runtimeRef, flow);
    assert BeginStep(s, key).value.jobs - {key} == s.jobs;
    assert PatchLabels(def.labels, def.labels, wanted) == def.labels + wanted;
    RunTwo(s, Begin(key), if WriteLabels in faults then Abort(key) else Patch(key));
  }

  lemma ListRun(s: Cluster, w: World, key: Key, flow: FlowDoc, faults: Faults)
    requires key !in s.jobs && key in s.defs && ParseFlow(s.defs[key].spec) == Some(flow)
    requires LabelsUpToDate(key, s.defs[key], flow) && GetDefinition !in faults
    requires w.defs == s.defs && w.configMaps == s.configMaps
    ensures RunsTo(s, Steps(s, key, faults), AfterLabels(w, key, flow, faults))
  {
    if ListSiblings in faults {
      assert BeginStep(s, key).value.jobs - {key} == s.jobs;
      RunTwo(s, Begin(key), Abort(key));
    } else if HasConflict(s.defs, key, s.defs[key].spec.runtimeRef, flow.name) {
      assert BeginStep(s, key).value.jobs - {key} == s.jobs;
      RunTwo(s, Begin(key), List(key));
    } else {
      ApplyRun(s, key, flow, faults);
    }
  }

  lemma ApplyRun(s: Cluster, key: Key, flow: FlowDoc, faults: Faults)
    requires key !in s.jobs && key in s.defs && ParseFlow(s.defs[key].spec) == Some(flow)
    requires LabelsUpToDate(key, s.defs[key], flow)
    requires !HasConflict(s.defs, key, s.defs[key].spec.runtimeRef, flow.name)
    ensures Run(s, [Begin(key), List(key), if ApplyConfigMap in faults then Abort(key) else Apply(key)])
         == Some(if ApplyConfigMap in faults then s
                 else s.(configMaps := s.configMaps[ConfigMapKey(key) := BuildConfigMap(key, s.defs[key], flow)]))
  {
    var s1 := BeginStep(s, key).value;
    var s2 := ListStep(s1, key).value;
    var last := if ApplyConfigMap in faults then Abort(key) else Apply(key);
    assert s2.jobs - {key} == s.jobs;
    assert [Begin(key), List(key), last] == [Begin(key)] + [List(key), last];
    RunFirst(s, Begin(key), [List(key), last]);
    RunTwo(s1, List(key), last);
  }

  // ---------- Two passes settle everything

  /** A reconcile of a key, with the calls that fail in it. */
  datatype Round = Round(key: Key, faults: Faults)

  function Pass(w: World, rounds: seq<Round>): World
    decreases |rounds|
  {
    if rounds == [] then w else Pass(Reconciled(w, rounds[0].key, rounds[0].faults), rounds[1..])
  }

  /** Every definition is reconciled without failures at least once. */
  ghost predicate Covers(w: World, rounds: seq<Round>) {
    forall k | k in w.defs :: Round(k, {}) in rounds
  }

  /** The last reconcile of the key has no failures. */
  predicate EndsWell(rounds: seq<Round>, k: Key)
    decreases |rounds|
  {
    rounds != [] && (EndsWell(rounds[1..], k) || (rounds[0] == Round(k, {}) && NoRoundOf(rounds[1..], k)))
  }

  predicate NoRoundOf(rounds: seq<Round>, k: Key) {
    forall r | r in rounds :: r.key != k
  }

  predicate LabelledOrUnparsed(w: World, key: Key) {
    key in w.defs && ParseFlow(w.defs[key].spec).Some? ==>
      LabelsUpToDate(key, w.defs[key], ParseFlow(w.defs[key].spec).value)
  }

  ghost predicate AllLabelled(w: World) {
    forall k | k in w.defs :: LabelledOrUnparsed(w, k)
  }

  ghost predicate Settled(w: World, key: Key) {
    Reconciled(w, key, {}) == w
  }

  ghost predicate AllSettled(w: World) {
    forall k :: Settled(w, k)
  }

  lemma ReconcileLabels(w: World, r: Round, k: Key)
    ensures r == Round(k, {}) || LabelledOrUnparsed(w, k) ==> LabelledOrUnparsed(Reconciled(w, r.key, r.faults), k)
    ensures Reconciled(w, r.key, r.faults).defs.Keys == w.defs.Keys
  {
  }

  lemma {:induction false} PassLabels(w: World, rounds: seq<Round>, k: Key)
    ensures Round(k, {}) in rounds || LabelledOrUnparsed(w, k) ==> LabelledOrUnparsed(Pass(w, rounds), k)
    ensures Pass(w, rounds).defs.Keys == w.defs.Keys
    decreases |rounds|
  {
    if rounds != [] {
      ReconcileLabels(w, rounds[0], k);
      PassLabels(Reconciled(w, rounds[0].key, rounds[0].faults), rounds[1..], k);
    }
  }

  /** With every label in place a reconcile touches only its own status and ConfigMap. */
  lemma ReconcileKeepsDefs(w: World, key: Key, faults: Faults)
    requires AllLabelled(w)
    ensures Reconciled(w, key, faults).defs == w.defs && Reconciled(w, key, faults).runtimes == w.runtimes
  {
  }

  lemma ReconcileKeepsOthers(w: World, key: Key, faults: Faults, k: Key)
    requires k != key
    ensures var w', c := Reconciled(w, key, faults), ConfigMapKey(k);
            && (k in w'.statuses <==> k in w.statuses) && StatusOf(w', k) == StatusOf(w, k)
            && (c in w'.configMaps <==> c in w.configMaps)
            && (c in w.configMaps ==> w'.configMaps[c] == w.configMaps[c])
  {
    ConfigMapKeyInjective(k, key);
  }

  lemma ReconcileSettles(w: World, key: Key)
    requires AllLabelled(w)
    ensures Settled(Reconciled(w, key, {}), key)
  {
    if key in w.defs {
      match ParseFlow(w.defs[key].spec)
      case None =>
        var w' := Reconciled(w, key, {});
        assert w'.statuses[key := StatusOf(w', key)] == w'.statuses;
        assert StatusOf(w', key).conditions[FlowParsed := false] == StatusOf(w', key).conditions;
      case Some(flow) =>
        AfterLabelsSettles(w, key, flow);
    }
  }

  lemma AfterLabelsSettles(w: World, key: Key, flow: FlowDoc)
    requires key in w.defs
    ensures var w' := AfterLabels(w, key, flow, {});
            w'.defs == w.defs && AfterLabels(w', key, flow, {}) == w'
  {
    var w' := AfterLabels(w, key, flow, {});
    assert w'.statuses[key := StatusOf(w', key)] == w'.statuses;
    assert Report(w', key, w.defs[key], flow, true) == Report(w, key, w.defs[key], flow, true);
  }

  lemma StaysSettled(w: World, r: Round, k: Key)
    requires AllLabelled(w) && Settled(w, k) && k != r.key
    ensures Settled(Reconciled(w, r.key, r.faults), k)
  {
    var w' := Reconciled(w, r.key, r.faults);
    ReconcileKeepsDefs(w, r.key, r.faults);
    ReconcileKeepsOthers(w, r.key, r.faults, k);
    if k in w.defs {
      assert k in w.statuses by {
        assert k in Reconciled(w, k, {}).statuses;
      }
      assert w'.statuses[k := StatusOf(w', k)] == w'.statuses;
      if ParseFlow(w.defs[k].spec).Some? {
        var flow := ParseFlow(w.defs[k].spec).value;
        assert Report(w', k, w.defs[k], flow, true) == Report(w, k, w.defs[k], flow, true);
        if !HasConflict(w.defs, k, w.defs[k].spec.runtimeRef, flow.name) {
          assert w.configMaps[ConfigMapKey(k)] == BuildConfigMap(k, w.defs[k], flow);
          assert w'.configMaps[ConfigMapKey(k) := BuildConfigMap(k, w.defs[k], flow)] == w'.configMaps;
        }
      }
    }
  }

  lemma ConfigMapKeyInjective(a: Key, b: Key)
    requires a != b
    ensures ConfigMapKey(a) != ConfigMapKey(b)
  {
    assert ConfigMapKey(a).name[4..] == a.name && ConfigMapKey(b).name[4..] == b.name;
  }

  lemma {:induction false} PassSettles(w: World, rounds: seq<Round>, k: Key)
    requires AllLabelled(w) && (EndsWell(rounds, k) || (Settled(w, k) && NoRoundOf(rounds, k)))
    ensures Settled(Pass(w, rounds), k)
    decreases |rounds|
  {
    if rounds != [] {
      var w' := Reconciled(w, rounds[0].key, rounds[0].faults);
      ReconcileKeepsDefs(w, rounds[0].key, rounds[0].faults);
      assert AllLabelled(w');
      if EndsWell(rounds[1..], k) {
      } else if EndsWell(rounds, k) {
        ReconcileSettles(w, k);
      } else {
        assert rounds[0] in rounds;
        StaysSettled(w, rounds[0], k);
      }
      PassSettles(w', rounds[1..], k);
    }
  }

  lemma {:induction false} SettledPass(w: World, rounds: seq<Round>)
    requires AllSettled(w) && forall r | r in rounds :: r.faults == {}
    ensures Pass(w, rounds) == w
    decreases |rounds|
  {
    if rounds != [] {
      assert rounds[0] in rounds && Settled(w, rounds[0].key);
      SettledPass(w, rounds[1..]);
    }
  }

  /** Two passes, each in any order, with any repetitions and failures: when the first
      reconciles every definition without failures at some time, and the second does so
      last, the state reached is one that no later pass without failures changes. */
  lemma TwoPassesSettle(w: World, first: seq<Round>, second: seq<Round>, later: seq<Round>)
    requires Covers(w, first) && forall k | k in w.defs :: EndsWell(second, k)
    requires forall r | r in later :: r.faults == {}
    ensures AllSettled(Pass(Pass(w, first), second))
    ensures Pass(Pass(Pass(w, first), second), later) == Pass(Pass(w, first), second)
  {
    var labelled := Pass(w, first);
    forall k | k in w.defs
      ensures LabelledOrUnparsed(labelled, k)
    {
      PassLabels(w, first, k);
    }
    PassLabels(w, first, Key("", ""));
    var settled := Pass(labelled, second);
    forall k
      ensures Settled(settled, k)
    {
      if k in w.defs {
        PassSettles(labelled, second, k);
      } else {
        PassLabels(labelled, second, k);
      }
    }
    SettledPass(settled, later);
  }

  /** Once settled, a status says whether the document parses. */
  lemma SettledParsed(w: World, key: Key)
    requires AllSettled(w) && key in w.defs
    ensures key in w.statuses && ConditionIn(w, key, FlowParsed) == Some(Parses(w.defs[key].spec))
    ensures Parses(w.defs[key].spec) ==> StatusOf(w, key).flow == Some(w.defs[key].spec.flow.value)
  {
    assert Settled(w, key);
    ReconcileReports(w, key, {});
  }

  /** What a settled state is: labels in place, the conditions say whether a rival exists
      and whether the runtime does, and whoever has no rival has its ConfigMap. */
  lemma SettledMeaning(w: World, key: Key, flow: FlowDoc)
    requires AllSettled(w) && key in w.defs && ParseFlow(w.defs[key].spec) == Some(flow)
    requires forall k | k in w.defs :: ParseFlow(w.defs[k].spec).Some? && k.ns != ""
    ensures LabelsUpToDate(key, w.defs[key], flow)
    ensures key in w.statuses && RuntimeConsistent in w.statuses[key].conditions
    ensures ConditionIn(w, key, RuntimeRefValid) == Some(Key(key.ns, w.defs[key].spec.runtimeRef) in w.runtimes)
    ensures var rival := exists k :: k in w.defs && k.ns == key.ns
                           && ParseFlow(w.defs[k].spec).value.name == flow.name
                           && w.defs[k].spec.runtimeRef != w.defs[key].spec.runtimeRef;
            && w.statuses[key].conditions[RuntimeConsistent] == !rival
            && (!rival ==>
                  && ConditionIn(w, key, ConfigMapReady) == Some(true)
                  && ConfigMapKey(key) in w.configMaps
                  && Publishes(w.configMaps[ConfigMapKey(key)], key, w.defs[key], flow))
  {
    forall k | k in w.defs
      ensures LabelsUpToDate(k, w.defs[k], ParseFlow(w.defs[k].spec).value)
      ensures Published(k, w.defs[k])
    {
      SettledIsLabelled(w, k);
    }
    assert Settled(w, key);
    assert w.statuses[key] == Report(w, key, w.defs[key], flow, true);
    assert HasConflict(w.defs, key, w.defs[key].spec.runtimeRef, flow.name) <==>
           exists k :: k in w.defs && k.ns == key.ns && ParseFlow(w.defs[k].spec).value.name == flow.name
                       && w.defs[k].spec.runtimeRef != w.defs[key].spec.runtimeRef;
  }

  lemma SettledIsLabelled(w: World, key: Key)
    requires Settled(w, key) && key in w.defs && ParseFlow(w.defs[key].spec).Some? && key.ns != ""
    ensures LabelsUpToDate(key, w.defs[key], ParseFlow(w.defs[key].spec).value)
    ensures Published(key, w.defs[key])
  {
    var flow := ParseFlow(w.defs[key].spec).value;
    assert LabelledOrUnparsed(Reconciled(w, key, {}), key);
    UpToDateIsPublished(key, w.defs[key], flow);
  }
}
