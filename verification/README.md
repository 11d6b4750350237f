# kube-bind konnector: protocols and registries

kube-bind keeps two clusters in step. A konnector in the consumer cluster carries the spec of consumer objects to a
service provider's cluster and the status back, copies claimed objects in whichever direction their owner label says,
and starts and stops the workers that do so. This project models these protocols and the registries around them in
Dafny and proves what every step keeps and where every run ends.

| file | what it holds |
|---|---|
| `Kube.dfy` | objects, JSON, and the API server: what create, update, status update, apply and delete do to a stored object |
| `ClaimedResources.dfy`, `ClaimedReconciler.dfy` | owner label protocol of claimed objects; the reconciler on two clusters |
| `ClusterScoped.dfy` | name, annotation and owner reference translation of cluster-scoped objects |
| `SpecStatusSync.dfy`, `SyncReconcilers.dfy` | spec and status sync as a state machine over single API calls; the two reconcilers |
| `SharedControllers.dfy` | reference-counted controller contexts shared by service bindings |
| `ContextStore.dfy`, `ExportWorkers.dfy`, `ExportsTogether.dfy`, `ExportReconciler.dfy` | the prefix-keyed store of sync workers, what reconciles make of it, alone and together, and the reconcile that fills it |
| `MultiNsInformer.dfy`, `DynamicInformer.dfy` | informers per service namespace; handlers that join a running informer |
| `Heartbeat.dfy`, `ExportRequest.dfy`, `Routing.dfy`, `ServiceNamespaces.dfy`, `Committer.dfy`, `CrdConversion.dfy`, `ClaimableApis.dfy` | heartbeats, request phases, queue keys, namespace assignment, merge patch commits, exports from CRDs |

`dafny verify dfyconfig.toml` checks everything.

## How to read it

Code that decides or computes is a function; code that changes state is a class whose methods are proved against such
functions, with the loops of the original. The API server is the only environment with a fixed meaning: every accepted
write takes a new revision (`clock`), an update with an old revision or another uid is refused, a terminating object goes
away with its last finalizer, and a server-side apply stores the object it is given. An unchanged `clock` therefore means
that nothing was written. Clocks, failing calls, cached answers and start outcomes are parameters.

`SpecStatusSync.WorkerStep` is the spec reconciler cut at its API calls. Safety is proved over all interleavings of these
steps with what others do; `Finish` runs the same steps without interruption, and the imperative reconciler in
`SyncReconcilers.dfy` is proved equal to it.

Where the code does not do what one would expect, the code is modelled and the exact condition is proved:

- A provider copy that is owner only through the consumer's label needs a second round, because the copy sent to the
  consumer is taken before the label is stamped (`TwoRoundsAreTight`).
- The binding filter of a shared controller asks for the context of the binding that founded it, and is wrong once that
  binding has left (`FilterIsRightWhileFounderStays`, `FounderLeaves`).
- Worker keys are matched as raw string prefixes, names of exports have dots, and the sweep for a missing schema is built
  from the schema's name where the export's name belongs (serviceexport_reconcile.go:128). So a reconcile can stop workers
  of other exports (`RawPrefixStopsAnother`, `DottedNameStopsAnother`, `MissingSchemaStopsAnother`). Each worker carries
  its export as a ghost; `SurvivalIsExact` says which workers a reconcile spares, `ConvergenceIsExact` when it has the
  outcome it should, and `AllConvergeExactly` when several exports get along.
- Two exports are reconciled at the same time (cluster_controller.go:254). Their calls to the store interleave without
  harm unless both want the same key; then a worker can be lost (`CollisionLeaks`). Whether they can is a matter of their
  names (`CollisionsAreExact`, `NamesMakeExclusive`).
- A handler that joins a running informer misses nothing, but may hear of a listed object after its deletion
  (`StaleReplay`); `RightButForOvertaken` says exactly about which objects it is wrong in the end.
- An APIServiceNamespace that is gone while its informer runs makes the event handler dereference nil in a log call
  (informer.go:174); the `NilDereference` outcome of `EnqueueServiceNamespace` says exactly when, and
  `Vanishes` is such a run.
- A request whose export exists already, even by its own earlier attempt, stays Pending (`WhenPendingSucceeds`).
- Namespaces assigned to service namespaces of different consumers can coincide (`AssignmentsAreDistinct`,
  `AssignmentsMeet`), and so can cluster-scoped keys (`PrefixesOverlap`).
- The export of a CRD whose storage version is not served has no storage version (`OneStorageVersion`).
- Heartbeat times are stored with the precision of the API, which the bounds of `Heartbeat` take as a parameter.

## Model

| member | source | states |
|---|---|---|
| `ClaimedResources.Convergence` | pkg/konnector/controllers/cluster/claimedresources/claimedresources_reconciler.go:48-263 | From any pair of copies with nothing terminating and immediate deletes, two rounds reach a pair that a third does not write: both gone, both in step under the first owner, or an undeterminable pair as it was; the owner's copy only gains the owner label, and the replica carries its payload, name, labels and annotations but for those of one cluster |
| `ClaimedResources.TwoRoundsAreTight` | pkg/konnector/controllers/cluster/claimedresources/claimedresources_reconciler.go:97-142 | A second round writes exactly when the provider's copy becomes owner only through the label on the consumer's copy |
| `ClaimedResources.OwnerStability` | pkg/konnector/controllers/cluster/claimedresources/claimedresources_reconciler.go:89-176 | Every round, also with terminating copies, keeps the owner while a copy remains and changes nothing of the owner's copy except the owner label |
| `ClaimedResources.OwnerStaysOverRuns` | pkg/konnector/controllers/cluster/claimedresources/claimedresources_reconciler.go:89-176 | The owner is the same along any run of rounds and outside changes that leave the owner labels alone |
| `ClaimedResources.OwnerDetermined` | pkg/konnector/controllers/cluster/claimedresources/claimedresources_reconciler.go:234-263 | The owner is undeterminable exactly when no copy names one and none is alone and unlabelled |
| `ClaimedResources.OwnerIs` | pkg/konnector/controllers/cluster/claimedresources/claimedresources_reconciler.go:234-263 | The owner is whom the provider's copy names, otherwise the side of a lone unlabelled copy, otherwise whom the consumer's copy names |
| `ClaimedResources.NewObjectIsCopied` | pkg/konnector/controllers/cluster/claimedresources/claimedresources_reconciler.go:89-176 | An unlabelled object on one side is copied to the namespace on the other side and is only labelled itself |
| `ClaimedResources.ReplicaFollows` | pkg/konnector/controllers/cluster/claimedresources/claimedresources_reconciler.go:89-176 | What one round makes of the replica in all cases, terminating copies included: taken down, created, rewritten or left alone; written exactly if content or label differ, with the owner's content and nothing of its cluster |
| `ClaimedResources.CandidateIsNormal` | pkg/konnector/controllers/cluster/claimedresources/claimedresources_reconciler.go:199-232 | Normalising a copy is idempotent, whatever the namespaces |
| `ClaimedResources.InfixesDoNotHideTheOwner` | pkg/konnector/controllers/cluster/claimedresources/claimedresources_reconciler.go:181-232 | Normalising commutes with stamping and never drops the owner label |
| `ClaimedReconciler.CandidateFromOwnerObj` | pkg/konnector/controllers/cluster/claimedresources/claimedresources_reconciler.go:199-232 | The loops over labels and annotations yield the normalised copy, which carries the owner's content and nothing of its cluster |
| `ClaimedReconciler.ReadReconciler.Reconcile` | pkg/konnector/controllers/cluster/claimedresources/claimedresources_reconciler.go:48-179 | The reconciler advances exactly the addressed pair by one round of the protocol and touches no other object; without a ready service namespace nothing happens |
| `ClaimedReconciler.ReadReconciler.FromProvider` | pkg/konnector/controllers/cluster/claimedresources/claimedresources_reconciler.go:98-142 | The branch for provider-owned objects, call by call |
| `ClaimedReconciler.ReadReconciler.FromConsumer` | pkg/konnector/controllers/cluster/claimedresources/claimedresources_reconciler.go:144-175 | The branch for consumer-owned objects, call by call |
| `ClusterScoped.DownUpDown` | pkg/konnector/controllers/cluster/serviceexport/cluster-scoped/utils.go:61-153 | Translating up and down again is the identity exactly on objects without a trace of the cluster namespace; translating up is refused exactly for objects of another one |
| `ClusterScoped.UpDownUp` | pkg/konnector/controllers/cluster/serviceexport/cluster-scoped/utils.go:61-153 | Translating down and up again is the identity up to the order of owner references exactly on objects marked for, prefixed with and referring once to the cluster namespace as injected |
| `ClusterScoped.BeheadPrepend` | pkg/konnector/controllers/cluster/serviceexport/cluster-scoped/utils.go:33-41 | Behead undoes Prepend, and Prepend undoes Behead exactly on prefixed names |
| `ClusterScoped.Unstructured.FindOwnerReferenceToClusterNs` | pkg/konnector/controllers/cluster/serviceexport/cluster-scoped/utils.go:155-165 | The loop finds the first reference to the cluster namespace or reports that there is none |
| `ClusterScoped.Unstructured.Inject` | pkg/konnector/controllers/cluster/serviceexport/cluster-scoped/utils.go:61-93 | Injection in place; a mismatch changes nothing |
| `ClusterScoped.Unstructured.Clear` | pkg/konnector/controllers/cluster/serviceexport/cluster-scoped/utils.go:108-122 | Clearing in place, by swapping with the last reference |
| `ClusterScoped.Unstructured.TranslateFromDownstream` | pkg/konnector/controllers/cluster/serviceexport/cluster-scoped/utils.go:126-135 | Translation in place; a failed one leaves the object unchanged |
| `ClusterScoped.Unstructured.TranslateFromUpstream` | pkg/konnector/controllers/cluster/serviceexport/cluster-scoped/utils.go:139-153 | Translation in place; a failed one leaves the object unchanged |
| `SpecStatusSync.FinalizerSafety` | pkg/konnector/controllers/cluster/serviceexport/spec/spec_reconcile.go:91-148 | In every run that interleaves users, provider, garbage collection and status controller with the single calls of the spec worker, a live provider copy always has an existing consumer object with the finalizer |
| `SpecStatusSync.WorkerKeepsInvariant` | pkg/konnector/controllers/cluster/serviceexport/spec/spec_reconcile.go:91-242 | Each single step of the spec worker keeps the safety and what its next step relies on |
| `SpecStatusSync.OutsideKeepsInvariant` | pkg/konnector/controllers/cluster/serviceexport/status/status_reconcile.go:65-76 | So does each step of anybody else, including the deletion by the status controller |
| `SpecStatusSync.StaleReadIsUnsafe` | pkg/konnector/controllers/cluster/serviceexport/spec/spec_reconcile.go:91-104 | The safety needs a current read of the provider copy: a stale "not found" releases an object with a live copy |
| `SpecStatusSync.NoFight` | pkg/konnector/controllers/cluster/serviceexport/spec/spec_reconcile.go:150-190 | For a live consumer object with a provider copy, one reconcile of each controller in either order makes specs and statuses agree, and further reconciles write nothing |
| `SpecStatusSync.SpecSyncCarriesSpec` | pkg/konnector/controllers/cluster/serviceexport/spec/spec_reconcile.go:150-190 | The spec controller changes the provider copy in its spec only, up to reference order, and adds just the finalizer to the consumer object |
| `SpecStatusSync.StatusSyncCarriesStatus` | pkg/konnector/controllers/cluster/serviceexport/status/status_reconcile.go:78-98 | The status controller changes the consumer's status only, absent exactly if absent upstream, and leaves agreeing statuses alone |
| `SpecStatusSync.StatusSyncCleansUp` | pkg/konnector/controllers/cluster/serviceexport/status/status_reconcile.go:65-76 | A missing consumer object takes the provider copy down; nothing is written without a provider copy or for an object of another consumer |
| `SpecStatusSync.SpecSyncCreates` | pkg/konnector/controllers/cluster/serviceexport/spec/spec_reconcile.go:105-127 | A missing provider copy is created with the consumer's spec, labels and annotations, marked and owned by the cluster namespace, without status and finalizers |
| `SpecStatusSync.SpecSyncDeletes` | pkg/konnector/controllers/cluster/serviceexport/spec/spec_reconcile.go:91-148 | A terminating consumer object takes a live provider copy down and is let go; waits without a write while the copy is terminating; and is let go if there is no copy. It disappears exactly if nobody else holds it, and keeps all other finalizers |
| `SpecStatusSync.SpecSyncRefuses` | pkg/konnector/controllers/cluster/serviceexport/spec/spec_reconcile.go:91-127 | Nothing is written for a provider copy that cannot be translated, and no copy is made of an object that cannot |
| `SpecStatusSync.RefusalsAreExact` | pkg/konnector/controllers/cluster/serviceexport/spec/spec_controller.go:111-164 | What cannot be translated: objects marked for another consumer, and cluster-scoped provider copies without a mark |
| `SpecStatusSync.RacesAreHandled` | pkg/konnector/controllers/cluster/serviceexport/spec/spec_reconcile.go:105-148 | What single steps do when others were faster: a refused finalizer ends the reconcile, an existing copy is not overwritten, a copy that is gone counts as deleted |
| `SyncReconcilers.Clusters.ReconcileSpec` | pkg/konnector/controllers/cluster/serviceexport/spec/spec_reconcile.go:52-191 | The uninterrupted reconcile is the worker's run of the protocol; it waits for the service namespace, and fails otherwise exactly if a new copy is for an object marked for another consumer or the provider copy names no consumer |
| `SyncReconcilers.Clusters.EnsureDownstreamFinalizer` | pkg/konnector/controllers/cluster/serviceexport/spec/spec_reconcile.go:193-216 | Adds the finalizer by an update if it is not there |
| `SyncReconcilers.Clusters.RemoveDownstreamFinalizer` | pkg/konnector/controllers/cluster/serviceexport/spec/spec_reconcile.go:218-242 | Removes every occurrence of the finalizer by an update if it is there |
| `SyncReconcilers.Clusters.ReconcileStatus` | pkg/konnector/controllers/cluster/serviceexport/status/status_reconcile.go:41-101 | The uninterrupted reconcile of the status controller; a missing consumer object takes the provider copy along, and it fails exactly if a cluster-scoped consumer object is marked for another consumer |
| `SharedControllers.Reconciler.Reconcile` | pkg/konnector/konnector_reconcile.go:51-146 | Keeps the registry sound (each binding in its own context only, one context per kubeconfig, cancelled exactly if empty), creates a context only for an unmapped kubeconfig, cancels only the context that the binding leaves last |
| `SharedControllers.Reconciler.Leave` | pkg/konnector/konnector_reconcile.go:71-79 | Leaving a context removes the binding from the shared set and cancels the context exactly if it was the last |
| `SharedControllers.Reconciler.Find` | pkg/konnector/konnector_reconcile.go:86-95 | The loop over the registry finds a context with the kubeconfig if there is one |
| `SharedControllers.Reconciler.ContextsPartitionBindings` | pkg/konnector/konnector_reconcile.go:37-49 | Contexts partition the bindings by kubeconfig, and the running contexts are those in the registry |
| `SharedControllers.Reconciler.FilterIsRightWhileFounderStays` | pkg/konnector/konnector_reconcile.go:131-135 | The binding filter of a running context is right exactly while the binding that founded it maps to it |
| `SharedControllers.FounderLeaves` | pkg/konnector/konnector_reconcile.go:131-135 | A run after which the controller of a binding runs with a filter that dereferences nil |
| `SharedControllers.LatestSecretDecides` | pkg/konnector/konnector_reconcile.go:51-146 | After any sequence of reconciles a binding has a controller exactly if its latest kubeconfig is usable, and it is the one for that kubeconfig |
| `SharedControllers.Reconciler.Run` | pkg/konnector/konnector_reconcile.go:51-146 | Any sequence of reconciles keeps the registry sound and ends in the view that the sequence determines |
| `ContextStore.Store.ListPrefixed` | pkg/konnector/controllers/contextstore/contextstore.go:76-87 | Lists exactly the contexts whose key has the prefix, each once |
| `ContextStore.Store.Set` | pkg/konnector/controllers/contextstore/contextstore.go:89-94 | Files a context under its key and keeps all others |
| `ContextStore.Store.Delete` | pkg/konnector/controllers/contextstore/contextstore.go:96-103 | Cancels and removes the context of a key; no worker is leaked |
| `ContextStore.Store.BulkDeletePrefixed` | pkg/konnector/controllers/contextstore/contextstore.go:105-126 | Cancels and removes exactly the contexts whose key has the prefix |
| `ExportReconciler.Reconciler.EnsureAt` | pkg/konnector/controllers/cluster/serviceexport/serviceexport_reconcile.go:175-183 | Keeps a worker of the right generation, otherwise cancels it before a new one is started under the key; other keys change only by what others do meanwhile |
| `ExportWorkers.KeysAreNewKeys` | pkg/konnector/controllers/contextstore/contextstore.go:33-38 | The keys of exports, schemas and claims are those built by NewKey |
| `ExportWorkers.KindsOfWantedKeys` | pkg/konnector/controllers/cluster/serviceexport/serviceexport_reconcile.go:155-166 | If no resource is called "claim...", schema keys and claim keys never meet |
| `ExportWorkers.ClaimsResolve` | sdk/apis/kubebind/v1alpha2/claimable_apis.go:83-90 | Exactly core config maps, secrets and service accounts resolve, and different claims resolve differently |
| `ExportWorkers.NamesTellResources` | sdk/apis/kubebind/v1alpha2/apiserviceexportrequest_types.go:145-150 | Resources without dots have different names, but for the empty group and core |
| `ExportWorkers.ConvergedMeans` | pkg/konnector/controllers/cluster/serviceexport/serviceexport_reconcile.go:88-352 | A converged store has, under the keys of NewKey, a worker at the export's generation per found schema and one at the binding's per claimable claim, different ones for different claims, and no other of the export |
| `ExportWorkers.ConvergenceIsExact` | pkg/konnector/controllers/cluster/serviceexport/serviceexport_reconcile.go:88-169 | For every store: a reconcile leaves exactly the wanted workers of this export at their generations, and keeps the workers that other exports own and those up to date, exactly if store and surroundings were favourable |
| `ExportWorkers.AttainabilityIsExact` | pkg/konnector/controllers/cluster/serviceexport/serviceexport_reconcile.go:116-151 | A wanted worker is there in the end, kept if it was up to date, exactly if it can be started or kept and no later sweep or clean-up hits it |
| `ExportWorkers.SurvivalIsExact` | pkg/konnector/controllers/cluster/serviceexport/serviceexport_reconcile.go:126-166 | A running worker comes through exactly if it has the wanted generation, no missing schema sweeps it, and neither clean-up reaches it; one that is not wanted, exactly if no missing schema sweeps it and it does not continue the export's key, or does so without a dot and starts with "claim." or is the name of a found schema |
| `ExportWorkers.UsuallyFavourable` | pkg/konnector/controllers/cluster/serviceexport/serviceexport_reconcile.go:88-169 | Without names "claim..." and start failures, and if stored keys with the export's key as a string prefix belong to the export and no missing schema sweeps a wanted or foreign key, the surroundings are favourable |
| `ExportWorkers.MissingSchemaStopsAnother` | pkg/konnector/controllers/cluster/serviceexport/serviceexport_reconcile.go:126-133 | Export "a" that misses schema "b.g" stops the worker of that schema that runs for export "b.g" |
| `ExportWorkers.RawPrefixStopsAnother` | pkg/konnector/controllers/cluster/serviceexport/serviceexport_reconcile.go:153-166 | A reconcile of export "a" with a binding stops every worker of export "ab" in the same namespace, unless the whole key is the name of a found schema |
| `ExportWorkers.DottedNameStopsAnother` | pkg/konnector/controllers/cluster/serviceexport/serviceexport_reconcile.go:153-166 | A reconcile of an export stops every worker of an export whose name continues its own after a dot, but those it wants itself, and leaves that export unconverged |
| `ExportWorkers.DottedNameExample` | pkg/konnector/controllers/cluster/serviceexport/serviceexport_reconcile.go:153-166 | Export "cowboys" without resources stops the worker of export "cowboys.wildwest" |
| `ExportsTogether.CollisionsAreExact` | pkg/konnector/controllers/contextstore/contextstore.go:33-38 | Two exports of a namespace can want the same key exactly if their names are equal or one continues the other after a dot |
| `ExportsTogether.AllConvergeExactly` | pkg/konnector/controllers/cluster/serviceexport/serviceexport_reconcile.go:88-169 | Reconciling several exports one after the other leaves all of them converged exactly if each can start its workers and none wants, sweeps or cleans up a key of one before it |
| `ExportsTogether.NeighboursInAnyOrder` | pkg/konnector/controllers/cluster/serviceexport/serviceexport_reconcile.go:88-169 | Exports that leave each other alone converge in any selection and order |
| `ExportsTogether.BothWaysMeansNeighbours` | pkg/konnector/controllers/cluster/serviceexport/serviceexport_reconcile.go:88-169 | Exports leave each other alone if one order and its reverse are fine |
| `ExportWorkers.SecondRunIsIdle` | pkg/konnector/controllers/cluster/serviceexport/serviceexport_reconcile.go:88-169 | After a favourable reconcile a second one leaves the store as it is exactly if no missing schema sweeps a wanted worker |
| `ExportWorkers.LateDeleteIsRepaired` | pkg/konnector/controllers/cluster/serviceexport/serviceexport_reconcile.go:472-501 | A claim worker's late delete that hits a newer entry is repaired by the next reconcile, which restarts that worker and no other |
| `ExportReconciler.Reconciler.EnsureControllers` | pkg/konnector/controllers/cluster/serviceexport/serviceexport_reconcile.go:88-169 | Whatever late deletes and reconciles of exports without a common wanted key do between its calls, never leaks a worker; stops all without export or binding; with a binding says for every key that others leave alone what becomes of it, which running workers survive, which are started and which failures are returned; undisturbed, has the right outcome exactly if favourable |
| `ExportReconciler.Reconciler.EnsureControllersForPermissionClaims` | pkg/konnector/controllers/cluster/serviceexport/serviceexport_reconcile.go:300-352 | In all surroundings ensures the resolvable claims at the binding's generation and stops every other worker under the claim prefix |
| `ExportReconciler.Reconciler.EnsureSchemas` | pkg/konnector/controllers/cluster/serviceexport/serviceexport_reconcile.go:116-146 | In all surroundings ensures the found schemas at the export's generation, sweeps for the missing ones, and reports failed fetches |
| `ExportReconciler.Reconciler.DropStale` | pkg/konnector/controllers/cluster/serviceexport/serviceexport_reconcile.go:341-349 | A clean-up removes exactly the keys under its prefix that are not to be kept |
| `ExportReconciler.Run` | pkg/konnector/controllers/cluster/serviceexport/serviceexport_reconcile.go:472-501 | After any run of reconciles, with the calls of other reconciles and late deletes of ended claim workers between their single calls, the started and uncancelled workers are those in the store |
| `ContextStore.Store.Launch` | pkg/konnector/controllers/cluster/serviceexport/serviceexport_reconcile.go:274-295 | Starting a worker keeps the registry sound exactly if its key is free |
| `ExportReconciler.NamesMakeExclusive` | pkg/konnector/controllers/cluster/cluster_controller.go:251-254 | Reconciles at the same time want no key in common if the names of their exports do not overlap |
| `ExportReconciler.CollisionLeaks` | pkg/konnector/controllers/cluster/serviceexport/serviceexport_reconcile.go:175-295 | If two exports want the same key and it is not up to date for either, their reconciles can interleave so that the worker of the first runs on and is in no entry |
| `MultiNsInformer.DynamicMultiNamespaceInformer.EnqueueServiceNamespace` | pkg/konnector/controllers/cluster/serviceexport/multinsinformer/informer.go:138-215 | After an event the service namespace has an informer exactly if it is ready, with all handlers attached; others are untouched; a vanished one with a running informer fails before any change |
| `MultiNsInformer.DynamicMultiNamespaceInformer.AddEventHandler` | pkg/konnector/controllers/cluster/serviceexport/multinsinformer/informer.go:217-229 | Attaches the handler once to every running informer and records it; a refusal leaves it unrecorded |
| `MultiNsInformer.DynamicMultiNamespaceInformer.Get` | pkg/konnector/controllers/cluster/serviceexport/multinsinformer/informer.go:231-250 | Agrees with the cluster-wide view wherever exactly one service namespace has the namespace and its events are handled, finds nothing where none has, and complains exactly if two have |
| `MultiNsInformer.DynamicMultiNamespaceInformer.List` | pkg/konnector/controllers/cluster/serviceexport/multinsinformer/informer.go:252-271 | Agrees with the cluster-wide view wherever exactly one service namespace has the namespace and its events are handled, is empty where none has, and complains exactly if two have |
| `MultiNsInformer.Run` | pkg/konnector/controllers/cluster/serviceexport/multinsinformer/informer.go:182-229 | Every interleaving of changes, events and registrations keeps each handler attached exactly once to each running informer |
| `MultiNsInformer.Vanishes` | pkg/konnector/controllers/cluster/serviceexport/multinsinformer/informer.go:159-180 | A run that ends in the nil dereference, with the informer of the vanished service namespace running on |
| `DynamicInformer.KeysNeverCollide` | pkg/konnector/controllers/dynamic/eventhandler.go:111-116 | Keys of registrations with different counters differ, whatever the handler names |
| `DynamicInformer.SharedInformer.Register` | pkg/konnector/controllers/dynamic/eventhandler.go:111-116 | A registration adds an entry and overwrites none |
| `DynamicInformer.SharedInformer.Dispatch` | pkg/konnector/controllers/dynamic/eventhandler.go:74-96 | Each event, deletions included, reaches every registered handler once |
| `DynamicInformer.SharedInformer.Leave` | pkg/konnector/controllers/dynamic/eventhandler.go:118-123 | A finished context removes its own handler and no other |
| `DynamicInformer.SharedInformer.NothingIsMissed` | pkg/konnector/controllers/dynamic/eventhandler.go:111-130 | What was in the store at listing time or came since is delivered, about to be replayed, or still queued |
| `DynamicInformer.SharedInformer.RightButForOvertaken` | pkg/konnector/controllers/dynamic/eventhandler.go:111-130 | In the end a handler takes an object to exist exactly if it is in the store or its deletion was heard before its replay |
| `DynamicInformer.StaleReplay` | pkg/konnector/controllers/dynamic/eventhandler.go:125-130 | A run in which a handler is left with a deleted object |
| `DynamicInformer.Run` | pkg/konnector/controllers/dynamic/eventhandler.go:74-130 | Along every interleaving, a drained queue and a finished replay mean complete delivery, and a right view but for the overtaken |
| `Heartbeat.AgeIsBounded` | pkg/konnector/controllers/cluster/clusterbinding/clusterbinding_reconcile.go:69-76 | With gaps of at most g between reconciles, the recorded heartbeat is never older than half an interval, or the stored precision if that is coarser, plus g |
| `Heartbeat.HeartbeatsAreSpaced` | pkg/konnector/controllers/cluster/clusterbinding/clusterbinding_reconcile.go:69-76 | A heartbeat is recorded again only after more than half an interval, up to the stored precision |
| `Heartbeat.NeverTimesOut` | backend/controllers/clusterbinding/clusterbinding_reconcile.go:84-107 | Then, within the clock skew, the backend never reports a timeout; it reports drift up to ten seconds after the heartbeat and health afterwards |
| `Heartbeat.TimeoutIsExact` | backend/controllers/clusterbinding/clusterbinding_reconcile.go:84-107 | For all intervals, gaps, skews and precisions some konnector is reported as timed out exactly if the largest age of a heartbeat plus the skew exceeds two intervals |
| `Heartbeat.VerdictsWithoutBound` | backend/controllers/clusterbinding/clusterbinding_reconcile.go:84-98 | The first heartbeat is pending exactly before the first reconcile, and a missing interval is reported exactly without one |
| `Heartbeat.ClusterBinding.Live` | pkg/konnector/controllers/cluster/clusterbinding/clusterbinding_reconcile.go:69-76 | A konnector that reconciles at given times and a backend that judges: the age is bounded, and a timeout means that the bound is exceeded |
| `ExportRequest.FinalPhasesStay` | backend/controllers/serviceexportrequest/serviceexportrequest_reconcile.go:55-85 | In every run that starts from Pending, Succeeded and Failed are never left |
| `ExportRequest.RunsAreHonest` | backend/controllers/serviceexportrequest/serviceexportrequest_reconcile.go:176-271 | Succeeded means that this request created an export with exactly its resources and claims, with claimable distinct claims and, if no scope is empty, exported resources of one scope |
| `ExportRequest.WhenPendingSucceeds` | backend/controllers/serviceexportrequest/serviceexportrequest_reconcile.go:176-271 | The exact surroundings in which a pending request succeeds; it stays pending once an export of its name exists |
| `ExportRequest.WhenPendingFails` | backend/controllers/serviceexportrequest/serviceexportrequest_reconcile.go:279-364 | A pending request fails exactly if its claims are bad or its export is created too late, in the given surroundings |
| `ExportRequest.WhatIsDone` | backend/controllers/serviceexportrequest/serviceexportrequest_reconcile.go:176-271 | A reconcile creates exactly the requested export and only in the given surroundings, and the request is deleted exactly after ten minutes once created or final |
| `ExportRequest.ScopesPassIffOneScope` | backend/controllers/serviceexportrequest/serviceexportrequest_reconcile.go:296-324 | The scope loop accepts exactly exported resources of one scope, if no scope is empty |
| `ExportRequest.Validate` | backend/controllers/serviceexportrequest/serviceexportrequest_reconcile.go:279-364 | The three loops reject, fail or accept as specified |
| `ExportRequest.NoDuplicates` | backend/controllers/serviceexportrequest/serviceexportrequest_reconcile.go:343-361 | The seen-map finds exactly the repeated claims |
| `ExportRequest.IsClaimableAPI` | backend/controllers/serviceexportrequest/serviceexportrequest_reconcile.go:366-374 | The search accepts exactly the claimable APIs |
| `ExportRequest.Reconciler.ReconcileRequest` | backend/controllers/serviceexportrequest/serviceexportrequest_controller.go:213-240 | One reconcile, including the store of a changed phase after an error |
| `ExportRequest.Reconciler.CreateExport` | backend/controllers/serviceexportrequest/serviceexportrequest_reconcile.go:176-271 | Creation of the export, phase and deletion by age |
| `Routing.RoutesAgree` | pkg/konnector/controllers/cluster/serviceexport/spec/spec_controller.go:258-297 | For all keys, namespaced or not: a provider event leads the spec controller to a consumer key exactly if a consumer event leads the status controller back, and both controllers take the same provider events |
| `Routing.RoutesArrive` | pkg/konnector/controllers/cluster/serviceexport/spec/spec_controller.go:258-297 | The keys of the two copies of an object lead to each other, by service namespace or prefix; keys of others lead nowhere |
| `Routing.PrefixesOverlap` | pkg/konnector/controllers/cluster/serviceexport/status/status_controller.go:198-233 | Two consumers can claim the same cluster-scoped key, for objects with names, exactly if one's "ns-" is a prefix of the other's |
| `Routing.SplitReadsBack` | pkg/konnector/controllers/cluster/serviceexport/status/status_controller.go:235-262 | Keys split into what they were made of |
| `Routing.KeysAreMetaKeys` | pkg/konnector/controllers/cluster/serviceexport/status/status_controller.go:235-262 | The keys that these theorems speak of are those made from plain namespaces and names |
| `Routing.Controller.SpecEnqueueProvider` | pkg/konnector/controllers/cluster/serviceexport/spec/spec_controller.go:258-297 | Queues the consumer key for a provider event |
| `Routing.Controller.StatusEnqueueProvider` | pkg/konnector/controllers/cluster/serviceexport/status/status_controller.go:198-233 | Queues the provider key for a provider event of this consumer |
| `Routing.Controller.StatusEnqueueConsumer` | pkg/konnector/controllers/cluster/serviceexport/status/status_controller.go:235-267 | Queues exactly the provider key whose events lead the spec controller back to this consumer key |
| `ServiceNamespaces.AssignmentIsStable` | backend/controllers/servicenamespace/servicenamespace_reconcile.go:48-77 | In every run from an empty status the status namespace is set once, to the name the deletion recomputes, and never changed |
| `ServiceNamespaces.AssignmentArrives` | backend/controllers/servicenamespace/servicenamespace_reconcile.go:48-77 | A reconcile without failures leaves the service namespace mapped to an existing namespace |
| `ServiceNamespaces.AssignmentNeedsAll` | backend/controllers/servicenamespace/servicenamespace_reconcile.go:48-83 | The status is assigned exactly if nothing fails, and only a failed creation leaves the namespace missing |
| `ServiceNamespaces.DeletionHitsTheAssigned` | backend/controllers/servicenamespace/servicenamespace_controller.go:232-243 | Deletion removes the very namespace that was assigned |
| `ServiceNamespaces.AssignmentsAreDistinct` | backend/controllers/servicenamespace/servicenamespace_reconcile.go:50-54 | Distinct under one provider namespace; across two, names can meet exactly if one's "ns-" is a prefix of the other's |
| `ServiceNamespaces.AssignmentsMeet` | backend/controllers/servicenamespace/servicenamespace_reconcile.go:50-54 | A concrete pair of service namespaces that get the same namespace |
| `ServiceNamespaces.Reconciler.Run` | backend/controllers/servicenamespace/servicenamespace_reconcile.go:48-77 | Whatever happens, the status is empty or the one name; a last reconcile without failures assigns it and leaves the namespace existing, or removes it once the service namespace is gone |
| `Committer.PatchYieldsNew` | pkg/committer/committer.go:91-114 | A merge patch computed between two objects and applied to the first yields the second exactly if the change brings no new null |
| `Committer.SpecCommitIsCorrect` | pkg/committer/committer.go:57-122 | A commit of metadata and spec carries uid and resourceVersion, and yields the new half and the old status exactly if it brings no new null |
| `Committer.StatusCommitIsCorrect` | pkg/committer/committer.go:57-122 | A commit of the status carries uid and resourceVersion, and yields the new status and the old rest exactly if it brings no new null |
| `Committer.CommitIsExact` | pkg/committer/committer.go:57-122 | Whatever has changed, the stored object becomes the new one under the old identity exactly if not both halves changed and no change brings a new null; it panics exactly if both changed and sends nothing exactly if none did |
| `Committer.NewMetaIsNew` | pkg/committer/committer.go:88-108 | The metadata that a commit aims at is the new one under the old uid and resourceVersion |
| `CrdConversion.OneStorageVersion` | sdk/apis/kubebind/v1alpha1/helpers/serviceexport.go:77-122 | The export of a CRD has a storage version exactly if that of the CRD is served, or with a webhook if any version is; otherwise it has none |
| `CrdConversion.ConversionKeeps` | sdk/apis/kubebind/v1alpha1/helpers/serviceexport.go:34-122 | Group, names and scope are kept both ways; the exported versions are the served ones in order with all they have, or the first of them; the CRD has the given name and no conversion |
| `CrdConversion.ImportIsExact` | sdk/apis/kubebind/v1alpha1/helpers/serviceexport.go:34-74 | A CRD is made exactly if all schemas can be read, and has all versions of the export in order with all they have |
| `CrdConversion.ExportRoundTrip` | sdk/apis/kubebind/v1alpha1/helpers/serviceexport.go:34-122 | An export turns into a CRD and back into itself exactly if all its versions are served and its schemas are in the written form |
| `CrdConversion.NormalisingIsIdempotent` | sdk/apis/kubebind/v1alpha1/helpers/serviceexport.go:34-122 | What is exported from a CRD turns into a CRD, and that into the same export |
| `CrdConversion.CRDToServiceExport` | sdk/apis/kubebind/v1alpha1/helpers/serviceexport.go:77-122 | The loop over the versions with its early end yields the served versions, or the first one as storage version |
| `CrdConversion.ServiceExportToCRD` | sdk/apis/kubebind/v1alpha1/helpers/serviceexport.go:34-74 | The loop over the versions yields the CRD, or the error of the first unreadable schema |

## Left out

- HTTP handlers, OIDC, cookies, CLI plugins, kubeconfig generation, bootstrap and deployment: I/O and library plumbing.
- The v1alpha2 conversion between CRDs and bound schemas, and the hash of an export's spec: field copying and library calls.
- The status controller's clean-up after the provider copy has disappeared (status_controller.go:381-392): it looks the consumer object up under the provider's key.
- RBAC objects, conditions, summaries and events: bookkeeping with easy claims.
- Work queues, rate limiting, caches and leader election: caches are current where a theorem needs it, and `StaleReadIsUnsafe` shows one place where it does.
- Parent-context cancellation and API errors other than not found, conflict and already exists; where a reconcile returns an error, only the state it leaves is modelled, except where a contract says otherwise.
- Convergence of claimed objects with terminating copies: with a terminating provider copy and no consumer copy the code creates one and deletes it in the next round.
- Server-side apply of the spec: modelled as storing the given object, without field ownership.
- The internals of the JSON patch library: `Committer.Diff` stands for its merge patch computation.
- ExportReconciler.Reconciler.EnsureControllers: what others do to the store meanwhile is any sequence of deletes, and of starts of workers that their exports want, under free keys; of the keys they touch only the absence of leaks is stated.
- ExportReconciler.Reconciler.EnsureAt: stands for the store part of starting schema and claim workers; building clients, informers and controllers is a single outcome: started, or failed with an error that is returned or only logged.
- MultiNsInformer.DynamicMultiNamespaceInformer.Get: assumes that the cache of every namespace informer is current and unfiltered by labels.
- ExportRequest.Reconciler.ReconcileRequest: creating bound schemas and service namespaces only matters through failing or not.
