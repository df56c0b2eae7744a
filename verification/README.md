# Verified model of the logic operator

This project models six parts of the operator, its command line and its gateway, and
proves what they promise. `dafny verify dfyconfig.toml` checks all of it.

* **OpenAPI minifier** (`OpenApiTree`, `Reachability`, `RefCollector`, `Minifier`,
  `MinifierProperties`, `MinifierExample`). A document is the tree of maps, slices and
  scalars a YAML decoder produces. The collector's tree walk, lookups and worklist are
  methods over mutable sets that pop and iterate in any order; the minifier drops
  operations and components of a document object in place. The worklist ends with
  exactly the least set closed under "references inside the referenced object";
  collection succeeds exactly when nothing needed is missing or malformed, whichever of
  several entries with one id it takes; of all references exactly the kept ones still
  resolve; a node reads the same when references are inlined to any depth exactly when
  everything it leads to is kept, as it is for every kept operation of a conforming
  document; minifications compose; and the result is exact and grows with what is asked for. The
  collector does not see what the operations of a path item share beside them, such as
  path-level parameters: those keep their meaning exactly when the operations need their
  components anyway, and a conforming document shows that they can be left dangling.
* **Runtime ownership of a workflow** (`Definitions`, `OwnershipProtocol`,
  `DefinitionReconciler`). Get, label, list and apply are separate steps of any number
  of reconciles, interleaved with users creating, changing and deleting definitions.
  Rivals never both own a ConfigMap. The webhook lists before the API server writes, and
  finds only siblings whose labels are up, so it can let rivals pass; which ones is stated
  exactly, and both ways are shown. A whole reconcile, any call of which may fail,
  is also modelled as a method, with what each of its conditions says; it is a run of the
  protocol, and two passes over all definitions settle everything in spite of failures
  before the last ones.
* **Route table and watcher** (`RouteTable`, `RouteTableProperties`, `CatalogWatcher`).
  The table builders, the store and the lookups are methods with their loops. The
  watcher is a step system with late events, replaced timers, a recompute lock and two
  lists read at different moments. Once a recompute has listed both since the last change
  and published, the table is the pure build of the cache, and the watcher comes to rest
  so once the cache stops changing. `SettledRoutes` joins this to the controller: when
  that has settled, the routes are the definitions' identities, and whoever reports a
  consistent runtime is routed to it.
* **Gateway finalizer** (`GatewayPlatform`, `GatewayProtocol`, `GatewayCleanup`,
  `GatewayEnable`). Reconciles of any number of platforms as sequences of API calls, each
  of which may fail, interleaved with each other and with users, with colliding names.
  Nothing the operator wrote outlives the finalizer of its platform, and no call touches
  another platform or another name. Somebody else's finalizer is lost exactly when it was
  added between the reconcile's read and its write. Enabling ends complete exactly when
  nothing foreign is in the way. The cleanup is also written as the sequence of calls with
  early returns that it is.
* **Durable lease pool** (`LeasePool`). Every run keeps every pool an initial segment of
  the indexes, which is why counting leases is an exact readiness test, and a reconcile
  without failures provides every lease below its count.
* **Upserts and image references** (`NamedUpsert`, `ImageReference`). One generic upsert
  stands for the three textually equal ones. The image printer and parser are inverse
  exactly under stated conditions.

`Kubernetes`, `Strings` and `Wrappers` hold what several modules share.

## What is assumed

* Minifier: the decoded object and the raw tree agree. Beyond the document loading this
  takes that every mapping has only string keys, since the collector does not enter a
  mapping with others, such as an unquoted status code in YAML, while the loader accepts
  it; and that no path item is given by a `$ref` of its own, which the loader resolves.
  A path item holds no other operations than the eight methods of section 4.7.9 of
  OpenAPI 3.0.3. A `$ref` that is not a string makes the code panic; this is an outcome
  of the model, not an assumption. That operationIds are unique (section 4.7.10) is
  assumed only where a contract says so; composition and exactness also use that path
  names begin with a slash (section 4.7.8) and that ids sit on operations. Siblings of a
  `$ref` are kept by the inlining, so it distinguishes more than section 4.7.23 asks
  for.
* Ownership: API reads are current, at most one reconcile per object name is in flight,
  and after creation only the operator writes the four identity labels. Definitions may
  be created with any labels. A creation is written some time after the webhook has let
  it pass; an update is validated against the very object it replaces, since the API
  server repeats the validation when that object has changed. The workflow parser, which
  is not part of this model, rejects an empty document name.
* Routes: the validity of an external URL is an arbitrary predicate. Namespaces hold no
  slash.
* Watcher: the cache changes before its event is delivered; spurious events may occur.
* Gateway: at most one reconcile per platform is in flight; users may change finalizers
  other than the gateway's, and delete anything; they do not relabel what the operator
  wrote, and do not create objects that name a platform as their owner. A deleting object takes no new finalizers and goes with its last one.
* Leases: nobody else writes leases with the pool's names or label.

## Model

| member | source | states |
|---|---|---|
| OpenApiTree.ParseRefMeaning | cli/pkg/specs/ref_collector.go:110-119 | a reference parses exactly when it spells `#/a/b/c` with slash-free a, b, c, possibly with more segments, and yields those three |
| OpenApiTree.FindMeaning | cli/pkg/specs/ref_collector.go:121-140 | lookup gives an object exactly when the reference spells three segments, and possibly more, that lead to it through maps |
| OpenApiTree.FindErrors | cli/pkg/specs/ref_collector.go:121-140 | otherwise it says which step is missing |
| OpenApiTree.RefsMeaning | cli/pkg/specs/ref_collector.go:165-190 | what the tree walk collects is exactly the text of every `$ref` that stands in the tree, below no other one; the walk panics exactly when one that stands there is no text |
| OpenApiTree.RefsOfTarget | cli/pkg/specs/ref_collector.go:121-140 | an object found by reference holds no reference the document does not hold, which bounds the worklist |
| OpenApiTree.ResolveThroughObject | cli/pkg/specs/ref_collector.go:121-140 | following every segment of a reference starts at the object the collector finds |
| RefCollector.EntryRefs | cli/pkg/specs/ref_collector.go:165-174 | adds exactly the references under a node, or panics exactly when some `$ref` is not a string |
| RefCollector.SliceEntry | cli/pkg/specs/ref_collector.go:176-180 | the same for a slice |
| RefCollector.MapEntry | cli/pkg/specs/ref_collector.go:182-190 | the same for a map, in any iteration order |
| RefCollector.EntryMeaning | cli/pkg/specs/ref_collector.go:142-163 | an operation is what the document holds under paths, a path and a key, and its id is its operationId |
| RefCollector.Collector.FindByOperationId | cli/pkg/specs/ref_collector.go:142-163 | finds an entry with the id exactly when there is one |
| RefCollector.Collector.QueueUnvisited | cli/pkg/specs/ref_collector.go:99-104 | queues exactly what was not visited |
| RefCollector.Collector.Follow | cli/pkg/specs/ref_collector.go:92-104 | fails exactly when the reference names no object, panics exactly when that holds a bad `$ref`, else queues its unvisited references |
| RefCollector.Collector.CollectDependentRefs | cli/pkg/specs/ref_collector.go:87-108 | terminates; succeeds exactly when every reachable reference names an object without a bad `$ref`, with exactly the reachable ones, whatever is popped |
| RefCollector.Collector.Collect | cli/pkg/specs/ref_collector.go:57-85 | takes some entry for every asked id; succeeds exactly when everything reachable from those taken is sound, and returns exactly what they need; on failure no completion of the choice would have succeeded; panics only come from a bad `$ref`, errors only from an unknown id or a reference that names nothing |
| RefCollector.CollectedUnique | cli/pkg/specs/ref_collector.go:57-85 | with unique ids nothing depends on the choice: success exactly when every asked id exists and everything reachable is sound |
| RefCollector.Group | cli/pkg/specs/ref_collector.go:70-83 | files exactly the three segments of every visited reference |
| RefCollector.QueueStep | cli/pkg/specs/ref_collector.go:89-106 | one round of the worklist keeps: visited is sound and closed up to the queue, and all of it is reachable |
| Reachability.Monotone | cli/pkg/specs/ref_collector.go:87-108 | more roots and larger successors reach at least as much |
| Reachability.FiniteClosure | cli/pkg/specs/ref_collector.go:87-108 | a closed set of reachable references that holds the roots is the least closed set |
| Minifier.Document.DropOperations | cli/pkg/specs/openapi_minifier.go:204-213 | in place, leaves asked operations and non-empty path items |
| Minifier.Document.DropComponents | cli/pkg/specs/openapi_minifier.go:215-241 | in place, leaves the preserved entries of the eight kinds and all of the others |
| Minifier.RemoveUnusedNodes | cli/pkg/specs/openapi_minifier.go:185-243 | fails exactly when collection fails or there are no paths; otherwise the document becomes the tree minified for the operations taken, which with unique ids are the asked ones |
| MinifierProperties.OperationsExact | cli/pkg/specs/openapi_minifier.go:204-213 | surviving operations are exactly those asked for, unchanged, and no path item is left without one |
| MinifierProperties.OperationsByName | cli/pkg/specs/openapi_minifier.go:204-213 | under each of the eight methods, by name, exactly the asked operations stay, and below extensions everything |
| MinifierProperties.ComponentsByName | cli/pkg/specs/openapi_minifier.go:215-241 | in each of the eight kinds, by name, exactly the needed components stay; all other kinds, security schemes among them, stay whole |
| MinifierProperties.MinifiedObject | cli/pkg/specs/openapi_minifier.go:204-240 | of all references that resolve in the original, exactly these are still found, and unchanged: a target in a filtered component kind is needed, and a target under paths survives; any other dangles |
| MinifierProperties.LinkedIsNeeded | cli/pkg/specs/ref_collector.go:87-108 | everything met while inlining a node whose references are collected is collected too, also through references deeper than three segments |
| MinifierProperties.NodeMeaningIff | cli/pkg/specs/openapi_minifier.go:185-243 | a node whose references name objects reads the same at every inlining depth, cycles included, exactly when every reference met on the way is kept |
| MinifierProperties.ChosenMeaningIff | cli/pkg/specs/openapi_minifier.go:185-243 | an operation that was taken for its id keeps its meaning, duplicate ids or not, exactly when no reference met leads to a dropped operation or path item |
| MinifierProperties.MeaningPreservedIff | cli/pkg/specs/openapi_minifier.go:185-243 | all kept operation objects keep their meaning exactly when no reference met in them leads to a dropped operation or path item |
| MinifierProperties.ConformingMeaningPreserved | cli/pkg/specs/openapi_minifier.go:185-243 | in a document whose path names begin with a slash, every kept operation object keeps its meaning; what a path item holds beside its operations is the next row |
| MinifierProperties.PathItemMeaningIff | cli/pkg/specs/openapi_minifier.go:204-241 | in such a document a surviving path item as a whole, path-level parameters included, keeps its meaning exactly when the filtered components met from beside its operations are needed by the asked operations |
| MinifierExample.MeaningLost | cli/pkg/specs/ref_collector.go:110-119 | a document outside the slash rule whose kept operation loses its target |
| MinifierExample.ParameterLost | cli/pkg/specs/ref_collector.go:57-64 | a conforming document whose path-level parameter dangles once minified |
| MinifierProperties.NeededKept | cli/pkg/specs/ref_collector.go:70-84 | what fewer operations need is the same before and after minifying for more |
| MinifierProperties.StillCollectable | cli/pkg/specs/ref_collector.go:57-85 | a minified document can be collected again for anything it was minified for: no reference reachable from those operations dangles |
| MinifierProperties.MinifiedMonotone | cli/pkg/specs/openapi_minifier.go:204-241 | asking for more keeps at least as much: entries and objects of the smaller result are in the larger one, unchanged, in any document |
| MinifierProperties.MinificationsCompose | cli/pkg/specs/openapi_minifier.go:204-241 | minifying for more and then for less equals minifying for less |
| MinifierProperties.MinificationIdempotent | cli/pkg/specs/openapi_minifier.go:204-241 | minifying twice changes nothing |
| MinifierProperties.ComponentsExact | cli/pkg/specs/openapi_minifier.go:229-240 | a filtered component survives exactly when the minified document's own operations reach it |
| OwnershipProtocol.KeepsJobsAgree | api/v1/logicflowdefinition_webhook.go:34-50 | since runtimeRef and document name are immutable, a reconcile in flight agrees with the live definition, and past the label check the labels are on it |
| OwnershipProtocol.KeepsStaleJobs | internal/controller/logicflowdefinition_controller.go:55-76 | while the reconcile of an older incarnation is in flight, the newer one owns nothing |
| OwnershipProtocol.KeepsConfigMaps | internal/controller/logicflowdefinition_controller.go:111-134 | a live ConfigMap names its owner's runtime and workflow, and the owner's labels are up |
| OwnershipProtocol.ListKeepsExclusion | internal/controller/logicflowdefinition_controller.go:179-204 | a definition that lists its siblings without conflict has no cleared rival |
| OwnershipProtocol.StepKeepsInv | internal/controller/logicflowdefinition_controller.go:72-89 | every step of every reconcile, user and collector keeps the protocol's invariant |
| OwnershipProtocol.RivalsNeverBothOwn | internal/controller/logicflowdefinition_controller.go:72-89 | over every run, two live definitions of a workflow with different runtimes never both own a ConfigMap |
| OwnershipProtocol.OneRuntimePerWorkflow | internal/controller/logicflowruntime_controller.go:106-118 | over every run, two runtimes of a namespace never list one workflow from live ConfigMaps |
| Definitions.ValidateCreateIff | api/v1/logicflowdefinition_webhook.go:20-32 | a creation passes exactly with a runtime, a document that parses, and no labelled sibling on another runtime |
| Definitions.ValidateUpdateIff | api/v1/logicflowdefinition_webhook.go:34-50 | an update passes exactly when both documents parse and neither runtime nor document name changes |
| OwnershipProtocol.PatchMeaning | internal/controller/logicflowdefinition_controller.go:158-177 | the label patch writes the identity labels that differed when read, and leaves all other labels as they are by then |
| Definitions.ConfigMapContents | internal/controller/logicflowdefinition_controller.go:111-134 | the ConfigMap has the owner, flow and identity of its definition, the recommended labels, and all other labels of the definition |
| Definitions.LabelsUpToDateIff | internal/controller/logicflowdefinition_controller.go:158-167 | labels count as in place when each of the four says what it should, absent like empty |
| OwnershipProtocol.NewRivalIff | api/v1/logicflowdefinition_webhook.go:56-79 | whatever happens between the list and the write, the rivals of the new definition are exactly the definitions of its workflow on another runtime that were created after the list or had not their labels up at it |
| OwnershipProtocol.AdmittedRivalIff | api/v1/logicflowdefinition_webhook.go:56-79 | when no conflicting creation is written in between, the rivals can be read off the moment of the list: the unlabelled definitions of that workflow on another runtime that remain |
| OwnershipProtocol.OnlyCreationMakesRivals | api/v1/logicflowdefinition_webhook.go:34-50 | a run without creations makes no rivals |
| OwnershipProtocol.AdmissionExcludesRivals | api/v1/logicflowdefinition_webhook.go:20-32 | so an admitted creation makes no rivals when those definitions have their labels up and no conflicting creation is written in between; other workflows and namespaces do not matter |
| OwnershipProtocol.TwoAdmissionsMakeRivals | api/v1/logicflowdefinition_webhook.go:56-79 | the first way round it: from any state, two conflicting creations that are both admitted before either is written make rivals |
| OwnershipProtocol.UnpublishedSiblingMakesRival | api/v1/logicflowdefinition_webhook.go:56-79 | the second: after one creation is written, a conflicting one is admitted exactly when the first has not its labels up yet, and then they are rivals |
| DefinitionReconciler.Reconciler.UpdateFlowIDLabels | internal/controller/logicflowdefinition_controller.go:158-177 | writes the identity labels exactly when one differs and the Patch does not fail |
| DefinitionReconciler.Reconciler.CheckRuntimeConsistency | internal/controller/logicflowdefinition_controller.go:179-204 | unless the List fails, reports a conflict exactly when a listed sibling targets another runtime, in any list order |
| DefinitionReconciler.Reconciler.ReconcileLabelled | internal/controller/logicflowdefinition_controller.go:79-105 | past the labels: what is applied and reported, and that a failing Apply is reported instead of returned |
| DefinitionReconciler.Reconciler.Reconcile | internal/controller/logicflowdefinition_controller.go:55-105 | after one reconcile, whichever of its calls fail: FlowParsed says whether the document parses, RuntimeRefValid whether the runtime exists, RuntimeConsistent whether no sibling conflicts, ConfigMapReady whether the apply went through or, under a conflict, what it said before; the flow reported is the parsed one; labels and ConfigMap are written exactly when due; nothing else changes |
| DefinitionReconciler.SuccessIsComplete | internal/controller/logicflowdefinition_controller.go:55-105 | an error is returned only after a failing call other than the apply, and without one nothing but the apply was skipped |
| DefinitionReconciler.ReconcileIsProtocolRun | internal/controller/logicflowdefinition_controller.go:55-105 | a reconcile without interference, failing or not, is a run of the protocol |
| DefinitionReconciler.TwoPassesSettle | internal/controller/logicflowdefinition_controller.go:55-105 | two passes in any orders, with failures as long as each definition is once reconciled without in the first and last without in the second, reach a state that no later pass changes |
| DefinitionReconciler.SettledMeaning | internal/controller/logicflowdefinition_controller.go:72-102 | when settled, the conditions say whether a rival exists and whether the runtime does, and whoever has no rival has its ConfigMap, ready and with its identity |
| DefinitionReconciler.SettledParsed | internal/controller/logicflowdefinition_controller.go:62-70 | when settled, FlowParsed says whether the document parses, and the flow reported is the parsed one |
| RouteTable.ReferencedDefinitions | workflow-gateway/internal/catalog/build.go:92-103 | the names a service refers to, in order |
| RouteTable.ReferencedNamesMember | workflow-gateway/internal/catalog/build.go:92-103 | these are its non-empty default definition, or else every non-empty name of the traffic list |
| RouteTable.KeyFromLabelsIff | workflow-gateway/internal/catalog/build.go:105-113 | the routing key is the three labels, none of them empty |
| RouteTable.BuildExecutionEndpoints | workflow-gateway/internal/catalog/build.go:17-52 | the first-wins table of all claims; reported are exactly the keys that claims disagree on and the errors below |
| RouteTableProperties.ServiceErrorsMeaning | workflow-gateway/internal/catalog/build.go:24-43 | those are the invalid URLs, the references of usable services that resolve to nothing, and the definitions so referenced that lack labels |
| RouteTable.BuildRuntimeServiceEndpoints | workflow-gateway/internal/catalog/build.go:58-90 | the same for runtime routes |
| RouteTableProperties.RuntimeErrorsMeaning | workflow-gateway/internal/catalog/build.go:64-76 | there the errors are the definitions without labels, and those with labels but without a runtime |
| RouteTable.Overlay | workflow-gateway/internal/catalog/watcher.go:143-145 | service routes replace runtime routes |
| RouteTable.Recompute | workflow-gateway/internal/catalog/watcher.go:127-149 | the store ends up with the pure build of both lists |
| RouteTable.ExecutionEndpointStore.Replace | workflow-gateway/internal/routing/endpoint_store.go:74-82 | the store holds the given table |
| RouteTable.ExecutionEndpointStore.LookupLatest | workflow-gateway/internal/routing/endpoint_store.go:33-42 | some routed version's URL, or none exactly when no version is routed |
| RouteTable.ExecutionEndpointStore.ResolveExecution | workflow-gateway/internal/routing/resolver.go:77-90 | an exact version's URL, or with an empty version the URL all versions share |
| RouteTable.FirstWinsMeaning | workflow-gateway/internal/catalog/build.go:44-48 | a key maps to its first claim, and to nothing without one |
| RouteTableProperties.RouteMeaning | workflow-gateway/internal/catalog/watcher.go:127-145 | the first usable service in list order that references the key, else the first definition's runtime, whose name and namespace are read back from the URL, else nothing |
| RouteTableProperties.LookupByName | workflow-gateway/internal/catalog/watcher.go:131-141 | the name index finds the definition of that namespace and name, whatever slashes the name asked for holds |
| RouteTableProperties.OrderFree | workflow-gateway/internal/catalog/build.go:17-90 | without a reported duplicate, any permutation of both lists gives the same table and again no duplicate |
| SettledRoutes.RoutesAreIdentities | workflow-gateway/internal/catalog/build.go:58-90 | once the controller has settled, the runtime routes are exactly the namespace, name and version of the definitions with a runtime, in any list order |
| SettledRoutes.SettledRoute | workflow-gateway/internal/catalog/build.go:76-87 | then a definition that no service claims is routed, and when it reports a consistent runtime the host of its route is that runtime in its namespace, where its ConfigMap is |
| RouteTableProperties.RuntimeURLInjective | workflow-gateway/internal/catalog/build.go:78-81 | runtime routes are equal exactly for the same runtime and namespace |
| RouteTableProperties.RuntimeURLReads | workflow-gateway/internal/catalog/build.go:78-81 | in a runtime route the runtime stands before the last dot and the namespace after it |
| RouteTableProperties.OneURLPerWorkflow | workflow-gateway/internal/routing/endpoint_store.go:28-42 | a workflow on one runtime and without services has one URL for all versions |
| CatalogWatcher.StepKeepsOneTimer | workflow-gateway/internal/catalog/watcher.go:99-106 | only the timer in the debounce field can be armed, also after one fired before it was replaced |
| CatalogWatcher.EventRestartsTimer | workflow-gateway/internal/catalog/watcher.go:99-106 | every delivered event starts the debounce interval anew: its timer is the newest and the only armed one |
| CatalogWatcher.StepKeepsCover | workflow-gateway/internal/catalog/watcher.go:76-134 | the current lists are published, on their way, or the last recompute could not list |
| CatalogWatcher.QuiescentCoherent | workflow-gateway/internal/catalog/watcher.go:99-151 | once a recompute has listed both since the last change and published, the table is the pure build of the cache; at rest that is so unless the last recompute could not list |
| CatalogWatcher.SettledStays | workflow-gateway/internal/catalog/watcher.go:116-125 | only a change of the cache ends that; later recomputes, failing or not, do not |
| CatalogWatcher.ReadyMeansPublished | workflow-gateway/internal/catalog/watcher.go:53-74 | once ready, the build of lists that were read is served exactly when some recompute has published; short of that the one that readiness waits for could not list, and nothing is served |
| CatalogWatcher.ReadyUnpublished | workflow-gateway/internal/catalog/watcher.go:53-74 | that exception is real: a start whose first recompute cannot list becomes ready with an empty table |
| CatalogWatcher.NeverStuck | workflow-gateway/internal/catalog/watcher.go:99-110 | short of rest some step of the watcher is enabled |
| CatalogWatcher.ComesToRestCoherent | workflow-gateway/internal/catalog/watcher.go:99-151 | once the cache stops changing, a bounded number of steps leads to rest and coherence |
| CatalogWatcher.FailedListIsNotRetried | workflow-gateway/internal/catalog/watcher.go:116-125 | a failed list can leave the watcher at rest with the old table |
| GatewayPlatform.BindingNamesEqualIff | internal/controller/workflow_gateway_builders.go:30-36 | binding names are equal exactly for equal platforms, for those whose namespace and name join to one text, and where the cut at 63 characters makes the joined texts clash |
| GatewayPlatform.GatewayNamesEqualIff | internal/controller/workflow_gateway_builders.go:21-27 | gateway names are equal exactly for equal platform names and where the cut makes them clash: one continues the other's suffixed name, or is a 53-character name followed by `-workflow` |
| GatewayPlatform.GatewayNamesInjective | internal/controller/workflow_gateway_builders.go:21-27 | among names of up to 46 characters gateway names are injective, and 46 is the limit |
| GatewayPlatform.NamesSpelled | internal/controller/workflow_gateway_builders.go:20-36 | both names in full, with their cut at 63 characters |
| GatewayPlatform.HasFinalizerWorkflowGateway | internal/controller/workflow_gateway_builders.go:171-178 | whether the finalizer is there |
| GatewayPlatform.RemoveFinalizerWorkflowGateway | internal/controller/workflow_gateway_builders.go:181-189 | the other finalizers in their order |
| GatewayPlatform.WithoutConcat | internal/controller/workflow_gateway_builders.go:181-189 | removal works part by part, so the other finalizers keep their order and number |
| GatewayPlatform.WithoutParts | internal/controller/workflow_gateway_builders.go:181-189 | what stands before and after one of the gateway's finalizers comes back as it was |
| GatewayProtocol.BeginMeaning | internal/controller/platform_gateway.go:36-63 | a reconcile cleans up under deletion with the finalizer or without a gateway, does nothing under deletion without the finalizer, and else enables |
| GatewayProtocol.StopsShort | internal/controller/platform_gateway.go:129-141 | enabling ends early exactly when a drifted binding has gone before its deletion, or the gateway has gone before the Deployment is built |
| GatewayProtocol.WithBindingKeeps | internal/controller/platform_gateway.go:98-146 | taking a binding over by force keeps the invariant, whoever it named before |
| GatewayProtocol.WithObjectKeeps | internal/controller/platform_gateway.go:84-96 | applying an object keeps the invariant, only under the finalizer |
| GatewayProtocol.RemoveFinalizerKeeps | internal/controller/platform_gateway.go:340-347 | the finalizer is removed only when nothing of the platform is left |
| GatewayProtocol.StepKeepsInv | internal/controller/platform_gateway.go:36-82 | every API call, failing or not, and every user action keeps the invariant |
| GatewayProtocol.BindingsNameProtectedPlatforms | internal/controller/platform_gateway.go:308-347 | over every run, an operator-written binding names a platform that exists and has the finalizer |
| GatewayProtocol.OwnersAreProtected | internal/controller/platform_gateway.go:84-265 | over every run, a platform-owned object's owner exists and has the finalizer |
| GatewayProtocol.NoFinalizerNothingLeft | internal/controller/platform_gateway.go:267-351 | without the finalizer no object or binding of the platform remains |
| GatewayProtocol.CleansInOrder | internal/controller/platform_gateway.go:267-338 | over every run a cleanup deletes in order: ingress, Service, Deployment, binding, account |
| GatewayProtocol.CallTouchesOnly | internal/controller/platform_gateway.go:36-351 | no call of a reconcile changes another platform or anything under another name |
| GatewayProtocol.CallWritesFinalizers | internal/controller/platform_gateway.go:56-63 | a call changes its platform's finalizers only, to those the reconcile read with the gateway's at the end or without it; a platform goes only under deletion, with its last finalizer |
| GatewayProtocol.TakesOffIff | internal/controller/platform_gateway.go:340-347 | a call takes off somebody else's finalizer exactly when its write is taken and the reconcile had not read that finalizer, since the write sends the whole list |
| GatewayProtocol.LateFinalizerLost | internal/controller/platform_gateway.go:56-63 | so a finalizer added between the reconcile's read and its write is lost |
| GatewayCleanup.GatewayOperator.DeleteOwned | internal/controller/platform_gateway.go:277-290 | get, owner check and delete of one kind |
| GatewayCleanup.GatewayOperator.DeleteGatewayIngress | internal/controller/platform_gateway.go:223-254 | Ingress and Route go if owned, and are left alone if not |
| GatewayCleanup.GatewayOperator.DeleteBinding | internal/controller/platform_gateway.go:308-323 | the binding goes if labelled for the platform |
| GatewayCleanup.GatewayOperator.PatchFinalizers | internal/controller/platform_gateway.go:340-347 | the gateway's finalizer is taken off, and a deleted platform without others goes |
| GatewayCleanup.GatewayOperator.DeleteWorkflowGatewayResources | internal/controller/platform_gateway.go:267-351 | a protocol run; on success nothing is left and the finalizer is off; on failure the finalizer stays and only own objects have gone; without faults it succeeds exactly when nothing foreign is in the way |
| GatewayCleanup.CleanupIsReached | internal/controller/platform_gateway.go:36-54 | deleting a platform or disabling its gateway begins this cleanup within the protocol |
| GatewayCleanup.RetryCleanup | internal/controller/platform_gateway.go:267-351 | after any failing attempts, one without faults empties what is the platform's own |
| GatewayCleanup.FinalizedMeaning | internal/controller/platform_gateway.go:340-347 | at the end the platform goes exactly when it is being deleted and had no other finalizer; else it keeps all but the gateway's |
| GatewayEnable.ReconcileEnables | internal/controller/platform_gateway.go:56-82 | enabling, left alone, ends with finalizer, account, binding, Deployment, Service and ingress in place exactly when no foreign account, Deployment, Service or role reference is in the way; either way the platform's finalizers are those before with the gateway's at the end if it was missing, other owners stay, and nothing else changes |
| GatewayEnable.AppliesInOrder | internal/controller/platform_gateway.go:65-79 | the Deployment is applied when account and binding are in place, the Service after it, the ingress last |
| GatewayEnable.ForeignTakenOverIff | internal/controller/platform_gateway.go:84-96 | a foreign object met by the check is taken over by the apply exactly when the Get fails, which is not told apart from a missing object |
| GatewayEnable.LateForeignTakenOver | internal/controller/platform_gateway.go:84-96 | and one created between the check and the apply is taken over as well |
| LeasePool.LeaseNameInjective | internal/controller/constants_runtime.go:10 | lease names are injective in runtime name and index |
| LeasePool.LeaseNameReads | internal/controller/constants_runtime.go:10 | a lease name spells the prefix, the runtime and a numeral of at least two digits whose value is the index |
| LeasePool.LeaseStore.ReconcileLeases | internal/controller/logicflowruntime_controller.go:156-215 | whatever leases there were: with Deployment, persistence and no failure every index below desired gets its lease and a pool ends with exactly the larger of its size and desired; otherwise nothing changes, and it fails exactly when a read does; nothing else is ever created or lost |
| LeasePool.CreatedPool | internal/controller/logicflowruntime_controller.go:192-209 | an initial segment stays one, grows at most to desired, and exactly so without failure |
| LeasePool.CreatedKeepsOthers | internal/controller/logicflowruntime_controller.go:192-209 | other runtimes' pools stay |
| LeasePool.PoolsAreSegments | internal/controller/logicflowruntime_controller.go:156-215 | over every run, each pool is an initial segment no larger than the largest count asked for |
| LeasePool.LeasesProvided | internal/controller/logicflowruntime_controller.go:192-209 | over every run, once a reconcile has met the Deployment and no failure, every index below its count has a lease |
| LeasePool.LeasesPersist | internal/controller/logicflowruntime_controller.go:211-214 | over every run no lease is ever removed or relabelled |
| LeasePool.LeaseStore.LeaseReady | internal/controller/logicflowruntime_controller.go:269-294 | ready exactly when every index below desired has a lease; nothing is reported without persistence or when the leases cannot be listed |
| LeasePool.CountIsExact | internal/controller/logicflowruntime_controller.go:285-291 | over every run, counting leases is that test |
| NamedUpsert.Holder.AddOrReplace | utils/kubernetes/volumes.go:103-125 | replaces the first entry of each item's name, then appends the rest |
| NamedUpsert.UpsertKeepsOrder | utils/kubernetes/volumes.go:103-125 | old entries keep their positions, and their values unless they are the first of a name that items have, which becomes the last such item; new ones follow in argument order |
| NamedUpsert.MissingConcat | utils/kubernetes/volumes.go:103-125 | new entries follow part by part, so in argument order |
| NamedUpsert.UpsertIsMapUpdate | utils/kubernetes/volumes.go:128-149 | by first entry of a name, the last item of a known name wins, the first item of a new one, and the rest stays |
| NamedUpsert.UpsertIdempotentIff | utils/kubernetes/volumes.go:152-170 | a second application changes nothing exactly when, for every name not yet an entry, the first and the last item of that name are equal |
| NamedUpsert.UpsertIdempotent | utils/kubernetes/volumes.go:152-170 | so it changes nothing when the items have unique names, or only names of entries |
| NamedUpsert.NewDuplicatesNotIdempotent | utils/kubernetes/volumes.go:103-125 | two different items of one new name make it differ |
| ImageReference.PrintParsedIff | cli/pkg/command/quarkus/build.go:322-370 | printing a parsed reference gives it back exactly when it has one tag and no empty leading segment |
| ImageReference.UntaggedGainsLatest | cli/pkg/command/quarkus/build.go:351-356 | an untagged reference gains the default tag |
| ImageReference.ParsePrintedIff | cli/pkg/command/quarkus/build.go:322-370 | parsing a printed reference gives it back exactly when it has a tag and not only its registry is empty |
| ImageReference.LoneRepositoryBecomesRegistry | cli/pkg/command/quarkus/build.go:326-338 | in that case the repository is taken for the registry |
| ImageReference.FlagsOverride | cli/pkg/command/quarkus/build.go:322-357 | a flag that is set is its own part of the result, and leaves the others to the image |
| ImageReference.TagParsed | cli/pkg/command/quarkus/build.go:323-356 | the tag stands between the first two colons, and the default one for an empty or missing tag |
| ImageReference.PathParsed | cli/pkg/command/quarkus/build.go:324-349 | with two slashes or more, registry, repository and all the rest as the name |
| ImageReference.ShortPathParsed | cli/pkg/command/quarkus/build.go:326-349 | with one a registry and a name, without any a name |

## Left out

- Reading files, YAML and JSON encoding, size limits, output names and messages of the minifier; one tree stands for the raw map and for the decoded object, and an emptied component kind stays as an empty map.
- Collecting the operation ids per spec file from the workflows: splitting strings and taking unions.
- A CONNECT operation, which the decoder knows and the emptiness test does not; the standard has none.
- Discriminator mappings, which are not references; mappings with keys that are not strings, and path items given by reference.
- ConfigMap contents beyond workflow identity, condition reasons and messages, status retries, server-side-apply merging, and calls that take effect although they report a failure.
- Cache staleness, and two operators at work at once.
- Building runtime Deployments, Services, pod RBAC and their status.
- ExecutionEndpointStore.Snapshot, whose work is a library sort, the instance store, lease lookup and the HTTP server and proxy.
- Shutting the watcher down through its context.
- The applying half of the gateway reconcile is modelled as calls of the protocol, not as a method of its own; its object specs, the ingress and route builders, and the gateway's status are left out.
- Deletion of gateway objects is immediate; finalizers on them are not modelled.
- Garbage collection of leases after their Deployment is deleted.
- The commands that run Maven, Docker, Podman and kubectl.
