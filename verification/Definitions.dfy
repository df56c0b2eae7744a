/** LogicFlowDefinitions, their identity labels and ConfigMaps, and the decisions the
    webhook and the controller take on them. */
module Definitions {
  import opened Kubernetes
  import opened Wrappers

  /** The four identity labels of the API group, the three recommended ones that child
      objects get, and all others by name. */
  datatype LabelName =
    | RuntimeRef | WorkflowName | WorkflowVersion | WorkflowNamespace
    | AppName | ManagedBy | PartOf
    | Other(name: string)

  type Labels = map<LabelName, string>

  const CONFIG_MAP_PREFIX := "lfd-"

  datatype FlowDoc = FlowDoc(name: string, version: string)

  /** The raw flow is represented by what decoding it gives, None when it does not decode. */
  datatype Spec = Spec(runtimeRef: string, flow: Option<FlowDoc>)

  datatype Def = Def(uid: nat, spec: Spec, labels: Labels)

  /** The owner reference: a name in the object's own namespace, and a uid. */
  datatype OwnerRef = OwnerRef(name: string, uid: nat)

  datatype ConfigMap = ConfigMap(owner: OwnerRef, labels: Labels, flow: FlowDoc)

  /** The parser insists on a document name. */
  function ParseFlow(spec: Spec): Option<FlowDoc> {
    if spec.flow.Some? && spec.flow.value.name != "" then spec.flow else None
  }

  function ConfigMapKey(key: Key): Key {
    Key(key.ns, CONFIG_MAP_PREFIX + key.name)
  }

  /** A label's value; absent labels read as empty, as in a Go map. */
  function Label(labels: Labels, name: LabelName): string {
    if name in labels then labels[name] else ""
  }

  /** The labels updateFlowIDLabels wants on a definition. */
  function IdentityLabels(key: Key, runtimeRef: string, flow: FlowDoc): Labels {
    map[WorkflowName := flow.name, WorkflowVersion := flow.version,
        WorkflowNamespace := key.ns, RuntimeRef := runtimeRef]
  }

  predicate LabelsUpToDate(key: Key, def: Def, flow: FlowDoc) {
    var wanted := IdentityLabels(key, def.spec.runtimeRef, flow);
    forall l | l in wanted :: Label(def.labels, l) == wanted[l]
  }

  /** A label selector on workflow name and namespace: the labels must be present. */
  predicate Selected(labels: Labels, ns: string, workflow: string) {
    && WorkflowName in labels && labels[WorkflowName] == workflow
    && WorkflowNamespace in labels && labels[WorkflowNamespace] == ns
  }

  /** Some listed sibling of another name targets another runtime. */
  predicate HasConflict(defs: map<Key, Def>, key: Key, runtimeRef: string, workflow: string) {
    exists k | k in defs ::
      && k.ns == key.ns && Selected(defs[k].labels, key.ns, workflow)
      && k.name != key.name && defs[k].spec.runtimeRef != runtimeRef
  }

  /** The owner's labels, overlaid with the recommended ones. */
  function ChildLabels(key: Key, labels: Labels): Labels {
    labels[AppName := key.name][ManagedBy := "logic-operator"][PartOf := "logic-platform"]
  }

  function BuildConfigMap(key: Key, def: Def, flow: FlowDoc): ConfigMap {
    ConfigMap(OwnerRef(key.name, def.uid),
              ChildLabels(key, def.labels) + IdentityLabels(key, def.spec.runtimeRef, flow), flow)
  }

  predicate IdentityLabel(l: LabelName) {
    l.RuntimeRef? || l.WorkflowName? || l.WorkflowVersion? || l.WorkflowNamespace?
  }

  /** A label is there with a value, or with none. */
  function LabelIn(labels: Labels, l: LabelName): Option<string> {
    if l in labels then Some(labels[l]) else None
  }

  /** A definition's ConfigMap: its owner, its flow, its identity, and whatever other
      labels the definition has. */
  lemma ConfigMapContents(key: Key, def: Def, flow: FlowDoc)
    ensures var cm := BuildConfigMap(key, def, flow);
            && cm.owner == OwnerRef(key.name, def.uid) && cm.flow == flow
            && LabelIn(cm.labels, WorkflowName) == Some(flow.name)
            && LabelIn(cm.labels, WorkflowVersion) == Some(flow.version)
            && LabelIn(cm.labels, WorkflowNamespace) == Some(key.ns)
            && LabelIn(cm.labels, RuntimeRef) == Some(def.spec.runtimeRef)
            && LabelIn(cm.labels, AppName) == Some(key.name)
            && LabelIn(cm.labels, ManagedBy) == Some("logic-operator")
            && LabelIn(cm.labels, PartOf) == Some("logic-platform")
            && forall name :: LabelIn(cm.labels, Other(name)) == LabelIn(def.labels, Other(name))
  {
  }

  /** The definition's name is read back from its ConfigMap's. */
  lemma ConfigMapKeyReads(key: Key)
    ensures ConfigMapKey(key).ns == key.ns
    ensures |ConfigMapKey(key).name| >= 4 && ConfigMapKey(key).name[..4] == "lfd-"
            && ConfigMapKey(key).name[4..] == key.name
  {
  }

  /** Labels are up to date when each says what it should, where an absent label and an
      empty one say the same. */
  lemma LabelsUpToDateIff(key: Key, def: Def, flow: FlowDoc)
    ensures LabelsUpToDate(key, def, flow)
        <==> && LabelIn(def.labels, WorkflowName).GetOr("") == flow.name
             && LabelIn(def.labels, WorkflowVersion).GetOr("") == flow.version
             && LabelIn(def.labels, WorkflowNamespace).GetOr("") == key.ns
             && LabelIn(def.labels, RuntimeRef).GetOr("") == def.spec.runtimeRef
  {
    var wanted := IdentityLabels(key, def.spec.runtimeRef, flow);
    assert wanted.Keys == {WorkflowName, WorkflowVersion, WorkflowNamespace, RuntimeRef};
    if LabelsUpToDate(key, def, flow) {
      assert Label(def.labels, WorkflowName) == wanted[WorkflowName];
      assert Label(def.labels, WorkflowVersion) == wanted[WorkflowVersion];
      assert Label(def.labels, WorkflowNamespace) == wanted[WorkflowNamespace];
      assert Label(def.labels, RuntimeRef) == wanted[RuntimeRef];
    }
  }

  // ---------- Admission

  datatype Verdict = Admitted | Rejected(reason: string)

  function ValidateCreate(defs: map<Key, Def>, key: Key, spec: Spec): Verdict {
    if spec.runtimeRef == "" then Rejected("spec.runtimeRef.name is required")
    else match ParseFlow(spec)
         case None => Rejected("spec.flow")
         case Some(flow) =>
           if HasConflict(defs, key, spec.runtimeRef, flow.name)
           then Rejected("already deployed on another runtime") else Admitted
  }

  function ValidateUpdate(before: Spec, after: Spec): Verdict {
    if before.runtimeRef != after.runtimeRef then Rejected("spec.runtimeRef is immutable")
    else if ParseFlow(after).None? then Rejected("spec.flow")
    else if ParseFlow(before).None? then Rejected("failed to parse old workflow object")
    else if ParseFlow(before).value.name != ParseFlow(after).value.name then Rejected("flow document name is immutable")
    else Admitted
  }

  /** A document that parses: it decodes and has a name. */
  predicate Parses(spec: Spec) {
    spec.flow.Some? && spec.flow.value.name != ""
  }

  /** A creation passes exactly with a runtime, a document that parses, and no sibling of
      another name in the namespace that carries the workflow's labels and another runtime. */
  lemma ValidateCreateIff(defs: map<Key, Def>, key: Key, spec: Spec)
    ensures ValidateCreate(defs, key, spec).Admitted?
        <==> && spec.runtimeRef != "" && Parses(spec)
             && !exists k :: && k in defs && k.ns == key.ns && k.name != key.name
                             && LabelIn(defs[k].labels, WorkflowName) == Some(spec.flow.value.name)
                             && LabelIn(defs[k].labels, WorkflowNamespace) == Some(key.ns)
                             && defs[k].spec.runtimeRef != spec.runtimeRef
  {
  }

  /** An update passes exactly when both documents parse and neither the runtime nor the
      document's name changes; its version may. */
  lemma ValidateUpdateIff(before: Spec, after: Spec)
    ensures ValidateUpdate(before, after).Admitted?
        <==> && before.runtimeRef == after.runtimeRef && Parses(before) && Parses(after)
             && before.flow.value.name == after.flow.value.name
  {
  }
}
