# Verified model of the CustomResourceDefinition API server

This project models, in Dafny 4.11, the parts of `k8s.io/apiextensions-apiserver` whose
correctness no single function shows, and proves what they promise: the protocol by which
several controllers change one CRD through lagging copies, the indexes kept up from event
queues, the two ways from a user's schema to the schema values are validated against, the
checks on structural schemas, the in-place schema visitor, and webhook conversion.

`dafny verify dfyconfig.toml` checks everything.

## How it is laid out

- `Crds`, `Registry`: the CRD record, the helpers on conditions and finalizers, and the API
  server as a log of stored versions with optimistic concurrency.
- `Naming`, `Establishing`, `Finalizing`: the three controllers. Each is a class whose `Sync`
  is proved to do what a specification function says, and what that comes to on the stored objects and the queue.
- `History`, `Lifecycle`, `LifecycleTheorems`: a state machine of the server log, a lister that
  lags behind it, the naming controller's mutation cache and the half-finished work of the
  controllers; its inductive invariant; and what holds in every run. A run is any sequence of
  steps; a step that is not enabled does nothing. The naming sync is split into fetching, listing,
  looking at one item, and writing, with anything in between; `SyncIsARun`, `EstablishingSyncIsARun` and
  `FinalizerSyncIsARun` tie the classes' `Sync` to these steps.
- `NamingDebts`, `NamingQueue`, `NamingRetry`: the same machine with the naming controller's work queue: events that
  arrive queue their object, a worker takes a key, and after a write, or when the key is gone, queues the rest of the
  group one by one. A refusal that nothing backs any more is never forgotten.
- `NamingTermination`, `MutationCache`, `NamingRuns`, `NamingLag`: the measure by which naming settles;
  what the controller sees of the names held through a lagging lister and its mutation cache; that in
  runs of the machine it stops writing once specs are left alone; and why the potential of
  the store needs a lister that has seen every removal.
- `ServingStorage`, `StorageProtocol`: the handler's map of serving infos, copy-on-write, against
  the queue of informer events.
- `Discovery`, `DiscoveryProtocol`: the discovery documents, likewise.
- `OpenAPIV3`: the index of OpenAPI v3 specs and the documents published from it.
- `Schemas`, `Translations`: the three schema forms, validation of JSON values, and both
  translations as functions. `Converters` and `StructuralConverters`: the program's loops, proved to
  compute them. `Agreement`: both translations accept the same values, and for each condition of
  that theorem an input that shows it is needed. `Annotations`: both keep every field of every node.
- `Visitor`, `VisitorWalks`, `Unfold`: the visitor with its write-back of map entries, what it leaves and reports
  node by node, and its three clients.
- `Completeness` (with the module `FieldPaths`), `StructuralValidation`, `ValidationRules`, `Acceptance`: the checks on
  structural schemas, the rules they check as a table per node, the effect of options, and what they contribute to the
  agreement of the translations. `SchemaWalks`: which schemas convert, and that nothing said under a junctor is lost
  before validation sees it.
- `WebhookConversion`, `WebhookReplies`: gather, scatter, and restoration of metadata; and which replies are used,
  said about the JSON itself.
- `Scale`: the scale subresource.

Lemmas switch automatic induction off; every induction is written out as a recursive call.

## Assumptions

- One naming worker runs, and only the modelled controllers (and writers of other conditions) write status.
- The mutation cache hands out the newer of its own write and the lister's copy and does not
  evict. When the code removes an entry the lister has caught up with, nothing can tell; entries
  that run out after 60 seconds (pkg/controller/status/naming_controller.go:80) are not modelled.
- Resource versions increase over the whole server; a UID is used once; a write that changes
  nothing keeps the stored version; an object being deleted disappears when its last finalizer goes.
- The plural, singular, kind and list kind in a spec are not empty, and an object's name is its
  plural, a period and its group. CRDs are deleted through the CRD registry's own delete, without a
  propagation policy that adds finalizers.
- `admitted` and `Rejected` stand for refusals that come from outside (admission, a lost
  connection before the write); what they depend on is not part of this model.
- Listing from an informer's cache does not fail; a work queue is the set of keys waiting in it.
- Times, sleeps, rate limits and drain timeouts are steps that may come at any moment.
- A sort of distinct strings by a strict total order is the sort library's; the order on versions is a parameter.
- References parse, regular expressions either compile or do not, and one-value checks (bounds,
  formats, patterns) are a parameter shared by both schema forms.
- k8s.io/apimachinery is not part of this model. How an unstructured object answers for its version, kind,
  name and nested fields is taken from its documented behaviour.

## Where code and documentation differ

- The comment on `ValidateStructural` allows the two int-or-string patterns for nodes marked
  `x-kubernetes-int-or-string: true` (pkg/apiserver/schema/validation.go:61-78). The code looks for
  them on every node (pkg/apiserver/schema/validation.go:143-144). The model does what the code does.
- The status strategy says status updates do not touch object metadata, and resets the new object's
  metadata from that same object (pkg/registry/customresourcedefinition/strategy.go:272-273), which changes
  nothing: the finalizer controller does take its finalizer off through the status endpoint.
- `ToKubeOpenAPI` is described as faithful and roundtrippable (pkg/apiserver/schema/kubeopenapi.go:23).
  It drops `additionalProperties` of nested schemas; `Agreement.NestedAdditionalPropertiesDisagree` and
  `Acceptance.AcceptedButDifferent` show the effect, the latter for a schema that passes validation.
- A CRD whose refused name is withdrawn from its spec keeps NamesAccepted=False although nothing
  conflicts (the early return at pkg/controller/status/naming_controller.go:257).
  `NamingTermination.SettledConditionIsCurrent` says exactly when, `StaleRefusalExample` gives one.
- The v3 index keeps the old spec of a version that is no longer served, and of one that is served but now fails
  to build (pkg/controller/openapiv3/controller.go:168-173). `OpenAPIV3.IndexFollowsServed` says
  exactly when a sync leaves the served and buildable versions indexed and no others; `LeftoverExample` shows both failures.

## Model

| member | source | states |
|---|---|---|
| LifecycleTheorems.NamesNeverShared | pkg/controller/status/naming_controller.go:97-293 | In every state of every run, on the server and in the lister, two different CRDs of one group hold no common non-empty plural, singular or short name and no common non-empty kind or list kind, for any interleaving of creates, updates, deletes, recreates, lagging deliveries, conflicting writes and naming syncs |
| LifecycleTheorems.EstablishedStays | pkg/controller/establish/establishing_controller.go:127-177 | Once Established is True on an object it is True for as long as that incarnation exists, over any run, though every controller writes from a stale copy |
| LifecycleTheorems.StepGrowsEstablished | pkg/controller/status/naming_controller.go:206-226 | No step takes Established=True away, and a step makes it True only over a stored version whose NamesAccepted is True |
| LifecycleTheorems.EstablishingEstablishes | pkg/controller/establish/establishing_controller.go:127-177 | In every reachable state: a write of the establishing controller made from the stored version leaves Established True if and only if the CA bundle of the conversion webhook is not invalid, with the reason of the case; every other condition, spec, names and finalizers are as before |
| LifecycleTheorems.EstablishStep | pkg/controller/establish/establishing_controller.go:127-171 | From the stored copy, with NamesAccepted True and Established not, the step is enabled and is the controller's one status update |
| LifecycleTheorems.PromisesAreKept | pkg/registry/customresourcedefinition/strategy.go:91-117 | Along every run an incarnation keeps its group and requested plural; once established its requested kind and its scope; its deletion mark; and once marked, no finalizer comes in but the cleanup one |
| LifecycleTheorems.FinalizerDropIsJustified | pkg/controller/finalizer/crd_finalizer.go:112-263 | A deleting CRD with the cleanup finalizer is let go only by a client's rewrite of the current object, or by the finalizer's second write over the very stored version, which then is apiservices of apiregistration.k8s.io or customresourcedefinitions of apiextensions.k8s.io, or is not Established, or had its instances listed, no deletion fail and a later list come back empty |
| LifecycleTheorems.TerminatingEndsWithTheFinalizer | pkg/controller/finalizer/crd_finalizer.go:143-178 | Terminating goes from True to anything else only in the write that drops the cleanup finalizer, under the same justification |
| LifecycleTheorems.ListerCopiesAreServable | pkg/apiserver/customresource_handler.go:283-316 | In every lister copy of every run: NamesAccepted present implies Established present; NamesAccepted or Established True implies four non-empty accepted names; deleting with the cleanup finalizer implies Terminating is True |
| LifecycleTheorems.SyncIsARun | pkg/controller/status/naming_controller.go:242-293 | An uninterrupted naming sync has the effect on server and cache of the machine's fetch, list, gather and write steps in a row |
| LifecycleTheorems.EstablishingSyncIsARun | pkg/controller/establish/establishing_controller.go:127-177 | A sync of the establishing controller on what the lister holds is the step Establish, or none |
| LifecycleTheorems.FinalizerSyncIsARun | pkg/controller/finalizer/crd_finalizer.go:112-179 | A sync of the finalizer controller is the steps Announce and Finish on what the first write returned, as far as the writes are let through |
| LifecycleTheorems.TargetConditions | pkg/controller/establish/establishing_controller.go:143-171 | What each status write says about Established and Terminating compared with the copy it was made from |
| LifecycleTheorems.TargetFinalizers | pkg/controller/finalizer/crd_finalizer.go:160-178 | Of all status writes only the finalizer's second one takes the cleanup finalizer off, and only when it may |
| LifecycleTheorems.StatusEffect | pkg/registry/customresourcedefinition/strategy.go:267-282 | A status write either leaves the store alone or was made from the stored version itself, and then changes status and finalizers only |
| LifecycleTheorems.MarkingEffect | pkg/registry/customresourcedefinition/etcd.go:114-175 | A deletion's transaction changes nothing but the named object, and that only by timestamp, cleanup finalizer and Terminating together in one version |
| LifecycleTheorems.UpdateMainEffect | pkg/registry/customresourcedefinition/strategy.go:91-117 | An update of the main endpoint changes spec and finalizers of the version it names and no status |
| Lifecycle.RunKeepsInv | pkg/controller/status/naming_controller.go:242-293 | The invariant tying server log, lister position, mutation cache and pending work together holds along every run |
| Lifecycle.StepKeepsInv | pkg/controller/status/naming_controller.go:97-293 | Every step of every component keeps that invariant |
| Lifecycle.NamingWriteKeepsInv | pkg/controller/status/naming_controller.go:262-290 | A naming write made from names gathered one CRD at a time, possibly long ago, still keeps names unshared, because it fails unless its copy is the stored version |
| Lifecycle.NamingGatherKeepsInv | pkg/controller/status/naming_controller.go:97-129 | Looking at one more listed CRD through the mutation cache keeps the record of which granted names are already counted |
| History.MatchIsStored | pkg/registry/customresourcedefinition/strategy.go:151-153 | A stale copy whose resource version matches is the stored object: the fact optimistic concurrency rests on |
| History.StaysGone | pkg/registry/customresourcedefinition/etcd.go:84-175 | An incarnation that is gone never comes back under its UID |
| History.VersionWasStored | pkg/registry/customresourcedefinition/strategy.go:74-117 | Every version in the log was what the server held at its own resource version |
| NamingRuns.NamingSettles | pkg/controller/status/naming_controller.go:242-293 | From every reachable state, as long as no CRD is created and no spec is changed, the naming writes that the server commits are at most (mismatched slots + CRDs + undelivered creations and removals) * (CRDs + 3) + CRDs + 2, however far the lister lags, and whatever deletions, removals, other status writers and interruptions do |
| NamingRuns.WritesAreBounded | pkg/controller/status/naming_controller.go:242-293 | The same from any state in which the invariants hold: the committed writes of a run are paid for by the weight it starts from |
| NamingRuns.StepWeighs | pkg/controller/status/naming_controller.go:242-293 | With specs left alone no step of any component adds weight, and each committed naming write, even one computed from names gathered before things changed, takes some away |
| MutationCache.StepKeepsCacheLeads | pkg/controller/status/naming_controller.go:270-284 | The cached copy of a CRD is a committed version, and no version of it with changed accepted names is newer: in every reachable state |
| MutationCache.ViewIsTheStore | pkg/controller/status/naming_controller.go:103-117 | Once the lister has seen every creation and removal, however many versions it lags behind, the copies consulted hold exactly the names held on the server |
| MutationCache.UsedNamesAreHeld | pkg/controller/status/naming_controller.go:95-127 | Then the names a sync counts as used in a group are exactly the names held there |
| MutationCache.GatheredNamesAreHeld | pkg/controller/status/naming_controller.go:95-127 | So are the names gathered by an interrupted sync, if it is still clean, which it is from listing on until a creation or removal is delivered |
| MutationCache.DeliverKeepsView | pkg/controller/status/naming_controller.go:105-117 | Delivering a new version of a CRD never changes what the controller counts |
| NamingRuns.CommitLowersPotential | pkg/controller/status/naming_controller.go:242-293 | In a state that is caught up (every creation and removal delivered) and clean, a committed naming write strictly lowers the lexicographic pair (slots where accepted differs from requested, CRDs whose stored NamesAccepted is not what the held names ask for) |
| NamingRuns.OthersKeepPotential | pkg/controller/status/naming_controller.go:242-293 | No other step raises that pair with specs left alone, not even a removal that frees names |
| NamingRuns.PotentialPaysForWrites | pkg/controller/status/naming_controller.go:242-293 | From a caught-up and clean state, until an object is removed, the committed naming writes of any run are at most the drop of that pair |
| NamingRuns.SyncIsSynced | pkg/controller/status/naming_controller.go:242-293 | A caught-up controller whose lister has the current version of a CRD writes exactly when accepted names or NamesAccepted differ from what the held names ask for, and then commits just that |
| NamingLag.LaggingWriteRaisesPotential | pkg/controller/status/naming_controller.go:103-117 | With one removal undelivered this fails: in a state where the invariants hold and only that event is undelivered, a sync refuses a free name and raises the pair by one |
| NamingTermination.WriteLowersPotential | pkg/controller/status/naming_controller.go:131-240 | A write computed from any sets of used names, right or wrong, lowers the pair if and only if it changes accepted names or carries the condition that the names really held ask for |
| NamingTermination.UndisturbedPotential | pkg/controller/status/naming_controller.go:242-293 | Removing objects and writing other parts of status never raises it |
| NamingRuns.QuietSyncMeansRealRefusals | pkg/controller/status/naming_controller.go:242-293 | Where the sync of a caught-up controller with the current version of a CRD writes nothing, every slot refused to that CRD asks for a name that some CRD of the group holds on the server |
| NamingTermination.SettledRefusalsAreReal | pkg/controller/status/naming_controller.go:131-240 | The same of the computation alone, on the names really held |
| NamingTermination.SettledConditionIsCurrent | pkg/controller/status/naming_controller.go:256-260 | Where nothing is left to write, the stored NamesAccepted differs from the computed one exactly for a CRD that has all it asks for while the condition does not say so |
| NamingTermination.StaleRefusalExample | pkg/controller/status/naming_controller.go:256-260 | Such a CRD with NamesAccepted=False and no conflict exists |
| NamingRetry.UnbackedRefusalIsDue | pkg/controller/status/naming_controller.go:324-395 | In every run with the queue: a CRD with a slot that lacks what it asks for, though nobody in its group holds that name on the server, is queued, in work, or has an event on its way, or the requeueing under way has yet to come to it, or some CRD of its group is itself queued, in work or about to be, and its sync will queue the group |
| NamingRetry.QuiescentRefusalsAreReal | pkg/controller/status/naming_controller.go:324-395 | With everything delivered, nothing queued and the worker free, every slot that lacks what it asks for asks for a name held in the group, nothing is left to write, and every CRD has a NamesAccepted condition |
| NamingRetry.QueueRunIsSync | pkg/controller/status/naming_controller.go:242-341 | Taking a key and all that follows without interruption is the controller's sync, on server, cache and queue; a key that failed is back in the queue |
| NamingRetry.RunUnder | pkg/controller/status/naming_controller.go:242-395 | Every run with the queue is a run of the lifecycle machine, so what is said of its runs holds here |
| NamingQueue.QStepKeepsQInv | pkg/controller/status/naming_controller.go:242-395 | Every step, of the queue, the worker or any other component, keeps it that nothing the controller would now decide otherwise is forgotten |
| NamingQueue.AcceptKeepsQInv | pkg/controller/status/naming_controller.go:270-293 | A committed write covers the rest of the group before anything else happens |
| NamingQueue.ArriveKeepsQInv | pkg/controller/status/naming_controller.go:343-381 | A delivered event queues its object, and one that brings or takes a CRD leaves its group in debt to it |
| NamingQueue.CoveredIsQueued | pkg/controller/status/naming_controller.go:383-395 | The loop over the listed CRDs queues the next one exactly when it is another CRD of the group that the key names |
| NamingDebts.DifferenceIsUndelivered | pkg/controller/status/naming_controller.go:242-250 | Where the lister differs from the server about an object, an event of that object is on its way |
| Naming.AcceptedMeansAllGranted | pkg/controller/status/naming_controller.go:131-205 | NamesAccepted is True exactly when every requested name is granted |
| Naming.RefusedMeansInUse | pkg/controller/status/naming_controller.go:143-199 | A slot that is not granted keeps what it had and asks for a name in use; categories are always granted |
| Naming.SlotsAreDecidedApart | pkg/controller/status/naming_controller.go:131-205 | Slot by slot: a name that is not one's own and taken is not granted and the slot keeps what it has; every other slot gets what it asks for |
| Naming.ConditionNamesTheConflict | pkg/controller/status/naming_controller.go:138-205 | NamesAccepted carries the reason of the last slot in conflict, in the order of the code, and names what is taken there |
| Naming.WritesChangeSomething | pkg/controller/status/naming_controller.go:256-268 | A write that the controller bothers to send changes the object |
| Naming.GrantedResourcesAreOursOrFree | pkg/controller/status/naming_controller.go:131-185 | Every non-empty resource name granted was held before or is used by nobody |
| Naming.GrantedKindsAreOursOrFree | pkg/controller/status/naming_controller.go:186-199 | Every non-empty kind granted was held before or is used by nobody |
| Naming.ConditionsAfterNaming | pkg/controller/status/naming_controller.go:200-229 | After a naming write NamesAccepted is the one worked out; an Established that is True stays, one that is not becomes Installing once the names are accepted, a missing one is made up as NotAccepted; every other condition reads as before |
| Naming.UsedCovers | pkg/controller/status/naming_controller.go:97-129 | The accepted names of every listed CRD of the group, as the mutation cache shows it, are counted as used |
| Naming.GroupOfValidName | pkg/controller/status/naming_controller.go:383-395 | The group read off the name of a CRD that is gone is the group of its spec |
| Naming.GroupIsParsed | pkg/controller/status/naming_controller.go:383-389 | The group read off a name is g exactly when the name is some plural without a period, a period, and g |
| Naming.RequeuedQueuesOthers | pkg/controller/status/naming_controller.go:383-395 | The queue afterwards is what it was and every other listed CRD of the group that the key names |
| Naming.NamingController.GetAcceptedNamesForGroup | pkg/controller/status/naming_controller.go:97-129 | The loop collects exactly the used resource names and kinds |
| Naming.NamingController.CalculateNamesAndConditions | pkg/controller/status/naming_controller.go:131-229 | Names and conditions worked out slot by slot are the granted names and the two conditions |
| Naming.NamingController.Sync | pkg/controller/status/naming_controller.go:242-293 | One sync's effect on server, mutation cache, queue and result, on every path: when the key is gone or its write was committed, exactly the other listed CRDs of its group are added to the queue; on every other path queue and cache stay as they are; it fails exactly when a write was needed and refused |
| Naming.NamingController.RequeueAllOtherGroupCRDs | pkg/controller/status/naming_controller.go:383-395 | Adds to the queue every listed CRD other than the one named whose group is the one in that name, and takes nothing out |
| Establishing.EstablishingController.Sync | pkg/controller/establish/establishing_controller.go:127-177 | From the stored version, with NamesAccepted True, Established not, and the write let through: the stored object has Established True if and only if the CA bundle is not invalid, and is otherwise as before; in every other case nothing is written |
| Establishing.WriteEstablishes | pkg/controller/establish/establishing_controller.go:143-171 | The same of the status update on the server's log |
| Finalizing.DeleteInstances | pkg/controller/finalizer/crd_finalizer.go:181-263 | Succeeds exactly when the list was read, every DeleteCollection succeeded and the poll saw an empty list; calls each listed namespace once |
| Finalizing.FinalizerController.Sync | pkg/controller/finalizer/crd_finalizer.go:112-179 | From the stored version, with its DeleteCollection calls: the two built-in resources and CRDs never established make no call and lose the finalizer when the writes commit; any other makes exactly one call for each listed namespace, and loses it exactly when its instances were seen to go; otherwise it is held back with the reason under Terminating |
| Finalizing.DropsOnlyWhenGone | pkg/controller/finalizer/crd_finalizer.go:51-56 | The second write drops the finalizer if and only if the CRD is one of the two built-in resources, or not Established, or its list was read, no deletion failed and a poll came back empty |
| Finalizing.OutcomeReads | pkg/controller/finalizer/crd_finalizer.go:143-171 | Terminating is False exactly when the finalizer goes, and its reason is that of the first case that applies: overlap, never established, completed, unconfirmed, failed |
| Finalizing.CleanUpOutcome | pkg/controller/finalizer/crd_finalizer.go:126-178 | What is left of the object after both writes, each let through or not |
| Registry.ApiServer.Delete | pkg/registry/customresourcedefinition/etcd.go:84-175 | Deletion with optional UID and version preconditions: conflict, not found, or the marking transaction |
| Registry.ApiServer.MarkForDeletion | pkg/registry/customresourcedefinition/etcd.go:113-165 | The marking transaction works on what is stored when it runs, under its UID and version preconditions, even if another request has marked that already |
| Registry.ApiServer.UpdateStatus | pkg/registry/customresourcedefinition/strategy.go:267-282 | A status update is committed only over the version it names and keeps the spec |
| Registry.StatusUpdateMeans | pkg/registry/customresourcedefinition/strategy.go:267-282 | When a status update is refused and how, and that one that is not replaces accepted names, conditions and finalizers of the version it names, under a new resource version unless nothing changed, or removes a deleting object whose last finalizer went |
| Registry.MainUpdateMeans | pkg/registry/customresourcedefinition/strategy.go:91-117 | The same of the main endpoint, which replaces spec and finalizers: group and plural never change, kind and scope not once established |
| Registry.CreationMeans | pkg/registry/customresourcedefinition/strategy.go:74-89 | A new object has no names, conditions or deletion mark, and a UID never used before |
| Registry.DeletionMeans | pkg/registry/customresourcedefinition/etcd.go:84-175 | A deletion request marks an unmarked object, holds it by the cleanup finalizer and sets Terminating, all in one version; a marked one stays as it is |
| Registry.MarkingMeans | pkg/registry/customresourcedefinition/etcd.go:113-165 | The transaction alone, on whatever is stored when it runs |
| Crds.SetThenFind | pkg/apihelpers/helpers.go:76-115 | A condition that was set is read back and every other type reads as before |
| Crds.RemoveThenFind | pkg/apihelpers/helpers.go:95-115 | A removed condition is gone and every other type reads as before |
| Crds.SetWhatIsThere | pkg/apihelpers/helpers.go:76-92 | Setting the condition that is already there changes nothing |
| Crds.RemoveFinalizer | pkg/apihelpers/helpers.go:160-168 | Removes every occurrence of one finalizer and no other |
| Crds.NameFixesGroup | pkg/apis/apiextensions/validation/validation.go:75-107 | A valid object name fixes group and requested plural |
| Crds.FirstVersionIsFirstNamed | pkg/apihelpers/helpers.go:171-219 | Served flag and subresources are looked up at the first version of the name |
| Crds.CrdObject.SetCRDCondition | pkg/apihelpers/helpers.go:76-92 | The in-place search and replacement sets the condition |
| Crds.CrdObject.RemoveCRDCondition | pkg/apihelpers/helpers.go:95-103 | The loop leaves exactly the conditions of other types |
| Crds.CrdObject.CRDRemoveFinalizer | pkg/apihelpers/helpers.go:160-168 | The loop leaves exactly the other finalizers |
| StorageProtocol.StaleOnlyWhilePending | pkg/apiserver/customresource_handler.go:459-562 | In every run a cached info has the spec and the accepted names of the lister's CRD of its UID, or an event for its UID is queued, or a deletion that will drop it has listed and not yet filtered; deletion lists before it locks, and a delete and recreate may arrive as one update |
| StorageProtocol.DrainedMeansExact | pkg/apiserver/customresource_handler.go:459-562 | With the queue drained, every cached info is the lister's and no dead UID remains |
| StorageProtocol.EveryInfoIsAccountedFor | pkg/apiserver/customresource_handler.go:519-562 | Every info ever published is either in the map under its UID or handed to teardown exactly once, never both |
| StorageProtocol.ServedRequestsFindStorage | pkg/apiserver/customresource_handler.go:368-450 | In every run, a request for a version whose first entry in the cached spec is served finds storage, request scope, status scope and scale scope, a status or scale storage exactly where that entry has the subresource, and the storage version's storage |
| StorageProtocol.StorageVersionIsStored | pkg/apihelpers/helpers.go:181-189 | In every run each cached info's storage version is the first version of its spec that is marked for storage |
| StorageProtocol.DrainedServesSubresources | pkg/apiserver/customresource_handler.go:336-354 | With the queue drained, the cached info has a status or scale storage exactly where the lister's CRD, which the handler looks at, has the subresource |
| StorageProtocol.RunKeepsInv | pkg/apiserver/customresource_handler.go:459-636 | The invariant behind these, for every interleaving of lister changes, handling, scanning, and requests that build while the lister moves on |
| StorageProtocol.RequestIsTwoSteps | pkg/apiserver/customresource_handler.go:616-1079 | The handler's request, when nothing interrupts it, is the machine's reading and publishing steps |
| ServingStorage.PublishConserves | pkg/apiserver/customresource_handler.go:1071-1079 | Publishing a new info keeps the accounting |
| ServingStorage.UpdateConserves | pkg/apiserver/customresource_handler.go:478-514 | Handling an update keeps the accounting |
| ServingStorage.KeepConserves | pkg/apiserver/customresource_handler.go:536-562 | Filtering out dead UIDs keeps the accounting |
| ServingStorage.ServedVersionIsBuilt | pkg/apiserver/customresource_handler.go:727-777 | Every served version gets a storage |
| ServingStorage.StorageVersionIsFirstStored | pkg/apihelpers/helpers.go:181-189 | The storage version is the first that is marked for storage, and there is none exactly when no version is |
| ServingStorage.UpdateDropsTheStale | pkg/apiserver/customresource_handler.go:478-514 | An update takes out what it replaced and what was built from another spec or other accepted names, and nothing else |
| ServingStorage.StorageMap.Clone | pkg/apiserver/customresource_handler.go:1253-1262 | The copy is a new map with the same entries |
| ServingStorage.CrdHandler.RemoveStorageLocked | pkg/apiserver/customresource_handler.go:519-533 | Drops one UID into a fresh map and starts one teardown; the map readers hold is unchanged |
| ServingStorage.CrdHandler.UpdateCustomResourceDefinition | pkg/apiserver/customresource_handler.go:478-514 | Drops a replaced UID, keeps an info that is up to date, drops a stale one, and queues establishing exactly for names accepted and not established |
| ServingStorage.CrdHandler.RemoveDeadStorage | pkg/apiserver/customresource_handler.go:536-562 | Keeps exactly the listed UIDs in a fresh map; the map readers hold is unchanged |
| ServingStorage.CrdHandler.GetOrCreateServingInfoFor | pkg/apiserver/customresource_handler.go:616-1079 | Returns the cached info; or, exactly when the lister's CRD has a version marked for storage and all four accepted names, builds one with the first such version as storage version and publishes it in a fresh map; or fails and publishes nothing |
| ServingStorage.CrdHandler.BuildParts | pkg/apiserver/customresource_handler.go:773-1051 | The loop over versions makes storages and scopes for exactly the versions served or stored, with status and scale storages where the first version of that name has the subresource |
| ServingStorage.CrdHandler.SetStatusScope | pkg/apiserver/customresource_handler.go:1097-1130 | Adds a status scope beside every request scope |
| ServingStorage.CrdHandler.Serve | pkg/apiserver/customresource_handler.go:459-636 | Over any sequence of events, requests and lister changes, every map ever published still holds at the end what it was published with |
| DiscoveryProtocol.WrongOnlyWhileWaiting | pkg/apiserver/customresource_discovery_controller.go:91-379 | In every state of every run each version document is the one from scratch, or its group-version is queued, has a pending event or is being synchronised; each group document likewise for some group-version of the group |
| DiscoveryProtocol.QuiescentMeansRight | pkg/apiserver/customresource_discovery_controller.go:340-379 | With nothing pending, queued or in work both tables equal the from-scratch result |
| DiscoveryProtocol.QuiescentDocuments | pkg/apiserver/customresource_discovery_controller.go:91-281 | Then a group has a document exactly when an established CRD serves a version in it, listing just the versions served; and a version has one exactly when it is served, with just the entries of the CRDs that serve it |
| DiscoveryProtocol.PublishIsSync | pkg/apiserver/customresource_discovery_controller.go:91-281 | What the protocol publishes is what the controller's sync computes from any listing of the same snapshot |
| DiscoveryProtocol.RunKeepsInv | pkg/apiserver/customresource_discovery_controller.go:340-397 | The invariant behind convergence, failures and requeues included |
| Discovery.ListingOrderIsIrrelevant | pkg/apiserver/customresource_discovery_controller.go:91-165 | Any order in which the lister hands out CRDs yields the same documents |
| Discovery.SortedListingIsUnique | pkg/apiserver/customresource_discovery_controller.go:168-170 | A set of versions has one sorted listing |
| Discovery.EntriesAre | pkg/apiserver/customresource_discovery_controller.go:140-253 | The entries of a CRD, field by field: itself under its accepted names, without create, patch and update while Terminating, with the hash of the last version served and stored; status and scale where the first version of the name has them |
| Discovery.HashIsOfTheStorageVersion | pkg/apiserver/customresource_discovery_controller.go:112-138 | The storage version hash is of the last version that is served and stored, and missing exactly when there is none |
| Discovery.DiscoveryController.Sync | pkg/apiserver/customresource_discovery_controller.go:91-281 | The group has a document exactly when a listed established CRD serves a version in it: those versions, each once, sorted. The version has one exactly when it is served: the entries of the CRDs that serve it. Nothing else changes |
| Discovery.DiscoveryController.ScanVersions | pkg/apiserver/customresource_discovery_controller.go:112-138 | The loop over a CRD's versions adds new served versions once, finds the synced one, and picks the storage hash |
| Discovery.DiscoveryController.Enqueue | pkg/apiserver/customresource_discovery_controller.go:359-363 | Adds exactly the group-versions that the CRD names, served or not |
| OpenAPIV3.Controller.Sync | pkg/controller/openapiv3/controller.go:154-175 | After every sync the published paths are apis/group/version of the indexed group-versions, each document the merge of its specs, none empty. Entries of other CRDs stay; a CRD that is gone or not established has none; an established one has what was built now at each served version that builds, and what it had anywhere else |
| OpenAPIV3.Controller.UpdateGroupVersion | pkg/controller/openapiv3/controller.go:192-211 | Republishing the one group-version out of step, or withdrawing it, restores that |
| OpenAPIV3.Controller.UpdateCRDSpec | pkg/controller/openapiv3/controller.go:213-235 | Indexes one spec; an unchanged spec is not published again and need not be |
| OpenAPIV3.Controller.DeleteCRD | pkg/controller/openapiv3/controller.go:177-190 | Takes one CRD out of every group-version, withdrawing those left empty, while the loop deletes from the map it runs over |
| OpenAPIV3.PathsAreDistinct | pkg/controller/openapiv3/util.go:23-25 | Group-versions whose groups have no slash have different paths |
| OpenAPIV3.GoneMeansUnindexed | pkg/controller/openapiv3/controller.go:177-190 | A CRD that is gone is nowhere in the index, and every other CRD's specs are as before |
| OpenAPIV3.ServedMeansIndexed | pkg/controller/openapiv3/controller.go:168-173 | Every served version that could be built is indexed with what was built |
| OpenAPIV3.IndexFollowsServed | pkg/controller/openapiv3/controller.go:168-173 | After a sync of an established CRD it is indexed at exactly its served and buildable versions if and only if every group-version it was indexed at before is one of them |
| OpenAPIV3.IndexedWhere | pkg/controller/openapiv3/controller.go:168-173 | Such a sync only adds: the CRD is indexed where it was, and where it is served and built |
| OpenAPIV3.OthersStayIndexed | pkg/controller/openapiv3/controller.go:212-235 | Indexing one CRD leaves the specs of the others alone |
| OpenAPIV3.LeftoverStays | pkg/controller/openapiv3/controller.go:168-173 | Where the CRD was indexed and is no longer served, or its build fails, the old specs stay as they were |
| OpenAPIV3.LeftoverExample | pkg/controller/openapiv3/controller.go:168-173 | An input for each of the two |
| Agreement.TranslationsAgree | pkg/apiserver/validation/validation.go:253-493 | On values without null, the direct translation and the one through structural form, unfolding and back accept exactly the same values, for every convertible schema without int-or-string or restricting additionalProperties under a junctor, with empty type on int-or-string nodes and Allows set where additionalProperties has a schema |
| Agreement.NestedAgrees | pkg/apiserver/schema/kubeopenapi.go:102-161 | The same for schemas under a junctor, nulls included |
| Agreement.WithPatternRestricts | pkg/apiserver/schema/unfold.go:28-58 | Unfolding an int-or-string node adds to its junctors the restriction to integers and strings and nothing else, in each of the four cases |
| Annotations.NotesAgree | pkg/apiserver/schema/convert.go:116-131 | For every convertible schema, both translations have at every node, items, properties, additionalProperties and junctors included, the same description, title, default, nullable, vendor extensions and one-value checks, and outside int-or-string nodes the same types; set apart are the pattern that unfolding adds to an int-or-string node, and additionalProperties under a junctor |
| Annotations.TwinKeeps | pkg/apiserver/schema/convert.go:42-131 | The way through the structural form and its unfolding keeps every field of every node of a convertible schema |
| Annotations.NestedKeeps | pkg/apiserver/schema/convert.go:191-262 | Under a junctor too, but for additionalProperties |
| Annotations.DirectKeeps | pkg/apiserver/validation/validation.go:253-412 | The direct translation keeps every field of every node of any schema |
| SchemaWalks.ConvertsExactlyWithPlaces | pkg/apiserver/schema/convert.go:301-325 | The conversion fails exactly when some node, wherever it is, sets a field the structural form has no place for |
| SchemaWalks.NotesUnderJunctorsAreRefused | pkg/apiserver/schema/validation.go:327-365 | A schema with a description, title, default, type, nullable or vendor extension below a junctor, at any depth and outside the two patterns that are passed over, is never accepted once it is converted, under any options |
| Agreement.NullDisagrees | pkg/apiserver/schema/unfold.go:28-58 | A nullable int-or-string schema accepts null directly and refuses it unfolded |
| Agreement.NestedAdditionalPropertiesDisagree | pkg/apiserver/schema/kubeopenapi.go:140-161 | additionalProperties under a junctor restricts directly and is dropped on the structural way |
| Agreement.NestedIntOrStringDisagrees | pkg/apiserver/schema/unfold.go:61-61 | int-or-string under a junctor restricts directly and not on the structural way |
| Agreement.TypedIntOrStringDisagrees | pkg/apiserver/validation/validation.go:261-267 | A type beside int-or-string is forgotten directly and kept on the structural way |
| Agreement.DisallowedRejects | pkg/apiserver/validation/validation.go:471-481 | With Allows false every object with a further field is refused directly, schema or not |
| Agreement.AllowsIsForgotten | pkg/apiserver/schema/convert.go:101-111 | With a schema for them, the structural form is the same as if additional properties were allowed |
| Acceptance.AcceptedSchemasAgree | pkg/apiserver/schema/validation.go:79-103 | A schema that converts and passes structural validation with default options has agreeing translations, given only what that validation does not look at |
| Acceptance.AcceptedButDifferent | pkg/apiserver/schema/convert.go:247-259 | What it does not look at matters: an accepted schema whose two translations differ on a value |
| Acceptance.CleanIsPlain | pkg/apiserver/schema/validation.go:265-372 | A nested schema without errors holds neither int-or-string nor additionalProperties at any depth, inside the skipped patterns too |
| Converters.ConvertJSONSchemaProps | pkg/apiserver/validation/validation.go:253-412 | Filling the output field by field computes the direct translation |
| Converters.ConvertSlice | pkg/apiserver/validation/validation.go:422-433 | The appending loop translates a list in order |
| Converters.ConvertMap | pkg/apiserver/validation/validation.go:435-449 | The loop over a map in any order translates every entry under its key |
| Converters.ConvertOrArray | pkg/apiserver/validation/validation.go:451-469 | Translates the one schema and the list of schemas of items |
| Converters.ConvertOrBool | pkg/apiserver/validation/validation.go:471-481 | Keeps the flag and translates the schema |
| Converters.ConvertOrStrings | pkg/apiserver/validation/validation.go:483-493 | Keeps the property list and translates the schema |
| StructuralConverters.ConvertToStructural | pkg/apiserver/schema/convert.go:42-114 | Succeeds exactly for schemas supported at every node, first error or not, and then returns the structural form |
| StructuralConverters.NewValueValidation | pkg/apiserver/schema/convert.go:133-189 | Converts the junctors, failing exactly when some schema under them is unsupported |
| StructuralConverters.NewNestedValueValidation | pkg/apiserver/schema/convert.go:191-262 | Converts one nested schema, failing exactly when it or one below is unsupported |
| StructuralConverters.NewExtensions | pkg/apiserver/schema/convert.go:264-285 | Fails exactly for preserve-unknown-fields set to false |
| StructuralConverters.ToKubeOpenAPI | pkg/apiserver/schema/kubeopenapi.go:24-51 | Filling the shared schema computes the OpenAPI form of a structural schema |
| StructuralConverters.ConvertNestedToKube | pkg/apiserver/schema/kubeopenapi.go:140-161 | The same for a nested schema |
| StructuralConverters.AddValueValidation | pkg/apiserver/schema/kubeopenapi.go:102-138 | Writes a value validation and its translated junctors into a schema being filled, and nothing else |
| Visitor.VisitMaps | pkg/apiserver/schema/visitor.go:42-106 | For every visitor whose callbacks report their changes, visiting with write-back only of changed map copies leaves the tree that applying the callbacks to every node leaves, nested nodes included |
| Visitor.NestedVisitMaps | pkg/apiserver/schema/visitor.go:74-106 | The same for nested nodes, as the place visited and as a map entry |
| Visitor.CopyAddsNothing | pkg/apiserver/schema/visitor.go:51-56 | A copy that is thrown away because no change was reported holds what its entry holds |
| Visitor.SilentCallbackLosesEntries | pkg/apiserver/schema/visitor.go:51-56 | A callback that does not report loses its change in a map entry and not behind a pointer |
| Visitor.OnlyEntriesNeedReports | pkg/apiserver/schema/visitor.go:48-60 | In a tree without map entries any structural callback is applied everywhere, whatever it reports |
| Visitor.NestedNodeUntouched | pkg/apiserver/schema/visitor.go:74-106 | A nil nested callback changes no nested node |
| Visitor.VisitStructural | pkg/apiserver/schema/visitor.go:42-72 | The walk returns whether a change was reported here or in a property entry, and leaves the visited node |
| Visitor.VisitNested | pkg/apiserver/schema/visitor.go:74-106 | The same for a nested node |
| Visitor.VisitProperties | pkg/apiserver/schema/visitor.go:51-56 | The loop over a map that writes back into it |
| Visitor.Visit | pkg/apiserver/schema/visitor.go:38-40 | With honest callbacks the result is the callback applied to every node |
| VisitorWalks.VisitReaches | pkg/apiserver/schema/visitor.go:38-72 | With honest callbacks every structural node is still there exactly when no callback on the way let go of it, with the fields its own callback gave it |
| VisitorWalks.VisitReachesInside | pkg/apiserver/schema/visitor.go:61-72 | So is every nested node inside the value validation that a structural node is left with |
| VisitorWalks.NestedVisitReaches | pkg/apiserver/schema/visitor.go:74-106 | So is every nested node of a nested node |
| VisitorWalks.VisitReports | pkg/apiserver/schema/visitor.go:51-56 | A visit says that something changed exactly when some callback reported it, there or behind it through map entries only |
| VisitorWalks.EntryIsWrittenBackOnReport | pkg/apiserver/schema/visitor.go:51-56 | Whatever the callbacks report: a map entry gets its callback's fields exactly when a change was reported there or behind it through entries, and keeps its own otherwise |
| Unfold.UnfoldIsIdempotent | pkg/apiserver/schema/unfold.go:21-66 | Unfolding twice is unfolding once |
| Unfold.EveryIntOrStringIsPatterned | pkg/apiserver/schema/unfold.go:27-58 | After unfolding, every int-or-string node has one of the two recognised patterns |
| Unfold.UnfoldOnlyAddsPatterns | pkg/apiserver/schema/unfold.go:27-58 | Unfolding alters no node but int-or-string nodes without a pattern, and there it only adds one: as anyOf where there is none, else in front of allOf |
| Unfold.PatternedIsFixed | pkg/apiserver/schema/unfold.go:32-36 | A tree whose int-or-string nodes all have a pattern is left as it is |
| Unfold.MappedIsUnfolded | pkg/apiserver/schema/unfold.go:26-63 | The callback applied to every node is the unfolding used in the agreement of the translations |
| Unfold.UnfolderIsHonest | pkg/apiserver/schema/unfold.go:27-60 | The callback reports exactly as the visitor needs |
| Unfold.Unfold | pkg/apiserver/schema/unfold.go:21-66 | The visit computes the unfolding: int-or-string nodes get their pattern and nothing else is altered |
| Unfold.StripValueValidations | pkg/apiserver/schema/skeleton.go:20-34 | No node of the result has a value validation, and everything else is as it was |
| Unfold.StripNullable | pkg/apiserver/schema/skeleton.go:37-48 | No node of the result is nullable, and everything else is as it was |
| Unfold.SkeletonKeepsTheRest | pkg/apiserver/schema/skeleton.go:20-34 | Node by node the skeleton is the schema without its value validations |
| Completeness.ErrorsAreUnmatchedWalks | pkg/apiserver/schema/complete.go:34-106 | Under any options an error is reported exactly for each walk through the root's value validation whose last step, and no step before it, has no structural counterpart, at the paths of that walk |
| Completeness.OneErrorPerWalk | pkg/apiserver/schema/complete.go:66-106 | Different walks have different errors |
| Completeness.CompleteIffAllResolve | pkg/apiserver/schema/complete.go:34-106 | No error is reported exactly when every walk resolves |
| Completeness.ErrorOfWalk | pkg/apiserver/schema/complete.go:42-106 | Every unmatched walk has its error |
| Completeness.ValidateStructuralCompleteness | pkg/apiserver/schema/complete.go:34-40 | The checker computes these errors |
| Completeness.ValidateNestedCompleteness | pkg/apiserver/schema/complete.go:66-106 | The recursive checker with its loop over properties |
| Completeness.ValidateValueCompleteness | pkg/apiserver/schema/complete.go:42-64 | The recursive checker with its loops over junctors |
| StructuralValidation.OptionsOnlyWiden | pkg/apiserver/schema/validation.go:90-103 | A schema accepted under some options is accepted under any further ones, although one option turns on extra completeness checks |
| StructuralValidation.InvariantsWiden | pkg/apiserver/schema/validation.go:106-195 | The same for the invariants alone, at every node and level |
| StructuralValidation.NestedWidens | pkg/apiserver/schema/validation.go:309-372 | The same for nested schemas |
| StructuralValidation.CleanHasNoAdditional | pkg/apiserver/schema/validation.go:309-336 | Without the option, an accepted nested schema holds no additionalProperties at any depth, the skipped patterns included |
| StructuralValidation.ResolvesUnderMoreOptions | pkg/apiserver/schema/complete.go:79-104 | More options never take a structural counterpart away |
| StructuralValidation.ValidateStructuralWithOptions | pkg/apiserver/schema/validation.go:90-103 | Reports nothing exactly for accepted schemas |
| ValidationRules.ErrorsAreBrokenRules | pkg/apiserver/schema/validation.go:106-372 | The errors of a schema are exactly the broken rules of its nodes, each with its kind and path: of the structural node at each place, and of each nested node that a walk from it leads to, the two skipped patterns aside |
| ValidationRules.NestedErrorsAreBrokenRules | pkg/apiserver/schema/validation.go:309-372 | The same for a nested schema alone |
| ValidationRules.ClearedMetadataIsEmpty | pkg/apiserver/schema/validation.go:204-222 | Nothing is left of a root metadata schema once type, default and names are cleared exactly when it restricts name and generateName and says nothing else |
| StructuralValidation.ValidateStructuralInvariantsOf | pkg/apiserver/schema/validation.go:106-195 | The recursive validator collects the errors of the node and of everything below |
| StructuralValidation.ValidateNestedValueValidation | pkg/apiserver/schema/validation.go:309-372 | The recursive validator of nested schemas |
| StructuralValidation.ValidateValueValidation | pkg/apiserver/schema/validation.go:265-306 | The validator of junctors, with the pattern skips and rules allowed under allOf only |
| StructuralValidation.CheckMetadata | pkg/apiserver/schema/validation.go:197-225 | Editing a copy until nothing should be left finds exactly the metadata schemas that say more than name and generateName |
| WebhookConversion.ConvertList | pkg/apiserver/conversion/webhook_converter.go:236-346 | Succeeds exactly when a review version is supported and nothing is to be sent or the reply is usable; the result is a fresh list of the same length and order with each item in its place; the input is never written to |
| WebhookConversion.FillIn | pkg/apiserver/conversion/webhook_converter.go:300-342 | The scatter: the reply index counts the items sent before and never leaves the reply |
| WebhookConversion.ListIsConvertedItemwise | pkg/apiserver/conversion/webhook_converter.go:126-142 | For a webhook that answers object by object, every item is unchanged or becomes the restored answer to itself |
| WebhookConversion.SentItem | pkg/apiserver/conversion/webhook_converter.go:130-136 | The reply index of an item is where the request held it, inside any reply of the right length |
| WebhookConversion.ConvertedListIsAtTarget | pkg/apiserver/conversion/webhook_converter.go:300-346 | Converting a converted list again would send nothing |
| WebhookConversion.ItemKeepsIdentity | pkg/apiserver/conversion/webhook_converter.go:317-336 | A converted item has the target version and the original's kind, name, namespace and UID |
| WebhookConversion.MetadataIsRestored | pkg/apiserver/conversion/webhook_converter.go:409-479 | On success the metadata is the original's with exactly labels and annotations replaced by the reply's, removed when absent or null; everything outside the metadata is the reply's |
| WebhookConversion.RestoreObjectMeta | pkg/apiserver/conversion/webhook_converter.go:409-479 | Succeeds exactly for restorable replies |
| WebhookConversion.RestoreField | pkg/apiserver/conversion/webhook_converter.go:432-476 | Accepts a field exactly when it is absent or a map of strings that equals the original's or is valid |
| WebhookConversion.NothingChanged | pkg/apiserver/conversion/webhook_converter.go:449-457 | Equal sizes and every reply entry in the original make the maps equal: when validation may be skipped |
| WebhookConversion.ParsedVersionIsTheString | pkg/apiserver/conversion/webhook_converter.go:312-315 | A parsed version with a group has one spelling |
| WebhookConversion.GetObjectsToConvert | pkg/apiserver/conversion/webhook_converter.go:126-142 | Gathers the items not at the target version, in order |
| WebhookConversion.ConvertObject | pkg/apiserver/conversion/webhook_converter.go:236-388 | One object: written in place when empty, returned when at the target, else converted, refused or failed exactly as the checks say |
| WebhookReplies.AcceptedMeansReplaces | pkg/apiserver/conversion/webhook_converter.go:306-481 | An element of the reply is accepted exactly when it is an object of the target version, of the original's kind, name, namespace and UID, whose labels and annotations are missing, null, as they were, or valid maps of strings |
| WebhookReplies.ReplacementReads | pkg/apiserver/conversion/webhook_converter.go:409-479 | What takes the original's place, field by field |
| WebhookReplies.ReplyIsUsed | pkg/apiserver/conversion/webhook_converter.go:186-234 | A reply is used when it is a review with a response that says Success, and in v1 also a v1 review that answers this request |
| WebhookReplies.ReviewVersionIsFirstSupported | pkg/apiserver/conversion/webhook_converter.go:145-169 | The review is made in the first listed version that is v1 or v1beta1 |
| WebhookReplies.ParsedAsRead | pkg/apiserver/conversion/webhook_converter.go:312-315 | How a version string is read: at most one slash, the group before it |
| WebhookReplies.PrintedVersionIsRead | pkg/apiserver/conversion/webhook_converter.go:250-252 | Printing a version without slashes in its parts and reading it again gives the version |
| WebhookReplies.RequestedItem | pkg/apiserver/conversion/webhook_converter.go:126-142 | Everything in the request is an item of the list that needs conversion, at the reply index of that item |
| WebhookReplies.RequestKeepsOrder | pkg/apiserver/conversion/webhook_converter.go:126-142 | Items that are sent keep their order |
| Scale.ScaleReadsBack | pkg/registry/customresource/etcd.go:297-369 | After a scale update the scale read back has the requested replicas and the status replicas and selector it had, and every other path outside the metadata reads as before, for paths none of which is a prefix of another |
| Scale.ValidScaleIsLossless | pkg/registry/customresource/validator.go:131-150 | Where the range checks pass, the casts lose nothing and no stored value is the sentinel |
| Scale.ValidUpdateReadsBack | pkg/registry/customresource/etcd.go:312-369 | The three together: whatever the request makes of the old scale, an update that passes the range check at the spec path reads back exactly the replicas asked for, uncast and not the sentinel, with status replicas and selector as before; and it passes if and only if they are in range |
| Scale.UpdatedObject | pkg/registry/customresource/etcd.go:312-369 | Succeeds exactly when the scale can be read, the request is granted with replicas other than the sentinel, and they can be set; the metadata then has the managed fields, and the resource version the request names, if any |
| Scale.ScaleIsRead | pkg/registry/customresource/etcd.go:251-297 | Replicas, status replicas and selector are each read at their own path, missing ones as zero or empty, wrapped to int32; the scale is read exactly when what is there is an integer, an integer and a text |
| Scale.RequestSees | pkg/registry/customresource/etcd.go:322-352 | The request sees the smallest int32 where the object has no replicas, so leaving them as they are is refused |
| Scale.SplitAtPeriods | pkg/registry/customresource/etcd.go:245-247 | A path is split at all its periods |
| Scale.GetOneFurther | pkg/registry/customresource/etcd.go:252-252 | A nested field is looked for in objects, missing from null, and an error anywhere else |
| Scale.SetFailsOnTheWay | pkg/registry/customresource/etcd.go:353-355 | Setting a nested field fails exactly when something on the way is there and is no object |
| Scale.SetElsewhere | pkg/registry/customresource/etcd.go:353-355 | Setting a nested field leaves every path alone that is neither above nor below it |
| Scale.SetThenGet | pkg/registry/customresource/etcd.go:353-355 | A nested field that was set is read back |

## Left out

- Visitor.VisitNested: a nested callback may rewrite a node's own fields and keep or drop its children and junctors; one that adds children, or puts other junctors in the place of its own, is not covered, since the walk need not end then.
- Visitor.NestedVisitMaps: the same callbacks only.
- Visitor.VisitStructural: the tree is a value, and what a thrown-away copy shares with its map entry is spelled out by `Leftover` instead of arising from pointers; a callback that adds structural children of its own is not covered, since the walk need not end then.
- Converters.ConvertJSONSchemaProps: a nil slice and an empty one are the same; `example`, `externalDocs` and the post-processing function are not modelled, and parsing of a reference does not fail.
- Translations: the OpenAPI form's vendor extensions are a record with one field for each key that is ever added.
- StructuralValidation.ValidateStructuralInvariantsOf: errors are a set of kinds and paths, so two with the same kind and path count as one, and messages are not modelled.
- Discovery.DiscoveryController.Sync: the aggregated discovery document and the initial synchronous pass are not modelled.
- ServingStorage.CrdHandler.GetOrCreateServingInfoFor: what the storages and scopes of a serving info contain, beyond which versions have them; and the steps of building that can fail besides the storage version and the accepted names (schemas, converters, printer columns).
- StorageProtocol.ServedRequestsFindStorage: while an event is undelivered, the subresources the handler looks up in the lister may differ from those the cached info was built with; nothing is claimed about status and scale requests then.
- WebhookConversion.ConvertObject: reply elements are values, so a reply that decodes to a typed object is an unusable element.
- Scale.UpdatedObject: managed fields are a parameter; a failure to set a metadata field is ignored, as in the program.
- Reading the scale alone, which adds that missing spec replicas are an error (pkg/registry/customresource/etcd.go:171-186).
- Error texts, transition times, observed generation, events, metrics and logging.
- HTTP serving, admission, authorization, tracing, and the wire formats of requests and replies.
- Ratcheting validation, CEL rules, defaulting and pruning of values.
- OpenAPI v2, and what merging and building v3 documents puts in them.
- Printer columns, field selectors, deprecation warnings and server start-up.
- That no instances of a CRD remain when it disappears: only what the finalizer's last look at them saw is claimed.
- Completeness of value validations on nodes other than the root, which the program does not check.
