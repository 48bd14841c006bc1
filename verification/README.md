# jpl: a verified model of the apply engine

`jpl` applies a set of Kubernetes objects to a cluster: it orders them by their dependencies, applies them group by
group, waits for each group, prunes what an earlier run applied and this one no longer has, and remembers what it
owns in an inventory. This project models the decisions it takes and proves what they promise.

- **Dependency graph** (`Layering`, `DependencyGraphs`, `GraphBuilder`, `GroupOrder`, `QueueBuilder`). The graph that
  is built is the declared one; peeling it succeeds exactly on acyclic graphs; a layer is a longest path; the groups do
  not depend on map iteration or on the unstable sort; dependencies are applied, and waited for, first.
- **Inventory and pruning** (`Events`, `Cluster`, `Inventory`, `Tasks`, `Runner`, `Applier`, `Statuses`, `Orphans`,
  `Scenarios`). One run is an imperative method over the cluster, the store, the manager and the runner state; it is
  proved to take a `RunStep` with a queue that was `Built`, and what any history of such steps keeps is proved about
  them. `owned` is a ghost set: the ids whose apply the API server confirmed and whose delete it did not, for as long as
  they stay in the cluster. `NoOrphans` says they are all in the inventory. `Scenarios` constructs runs for any input
  the builder accepts, which makes the conditions exact.
- **Text codecs** (`Text`, `Metadata`, `Annotation`). The inventory key and the `depends-on` annotation, with the exact
  sets of values that survive a round trip.
- **Multiplexer** (`Multiplexer`). Interleaved atomic steps of senders, `AddChannel` calls, forwarders and the closer.
- **Ordering and status** (`Ordering`, `Sorting`, `Deployment`). `less`, the pruning order, and when a Deployment is
  current.

Conventions. A value of `Unstructured` is a reference: its `addr` tells objects with equal contents apart, so statuses
are kept per object while ids are compared by metadata. Answers of the API server, of filters and of the poller, map
iteration order and cancellation are chosen arbitrarily inside the methods (`:= *`, `:|`). The cluster logs every answer
(`answers`, `replies`); what a run reports as the outcome of an object or a task is decided by that log, and the event
log, the requests, the statuses and the new inventory are functions of the outcomes.
Before every request other clients may create and delete any object.

Assumptions, each visible in a contract: a fetched object carries the id it was asked for and "not found" is answered
only for an id that is not in the cluster (`Clusters.Cluster.Get`, `Delete`); an apply request that is answered with an
error, or cut off by the timeout of the run, was not applied (`Clusters.Cluster.Patch`); nobody else writes the
inventory.

What turned out false, with a concrete case (in `Counterexamples`) and the exact condition:

- Ids do not always survive the inventory: `a__b` is read back as `a:b` (`DoubleUnderscoreIsLost`). `PrintThenParse`
  says exactly which do, and `IllFormedIsOrphan` that an owned id outside that set is never remembered.
- For the same reason a run can delete an object that no run ever applied: after `a__b` was applied, a foreign `a:b`
  (`ForeignIsDeleted`). It takes, and needs no more than, an accepted input with an id whose key is read back as another
  one: `ForeignDeletesAreExact`. Among ids made of key characters those are the names with `__` or `_:`
  (`MisreadNames`).
- A run that ends before it saves can leave orphans (`CutShortForgets`), exactly if it is not a dry run and some local
  id is not in the inventory yet: `UnsavedRunIsExact`. So can a saved run in which an unsupported media type ended an
  apply task early (`BailOutForgets`): a local id that is already owned is forgotten if it stands behind another object
  of its group in the sorted order. `SavedRunIsExact` gives the condition on the input and the owned ids: all local ids
  can be stored, and none of the owned ones stands behind another.
- Two Namespaces of one name (or two CRDs of one kind) with different metadata are not both dependencies; only the last
  in the input is: `OnlyLastNamespaceIsDependency`, `RulesAreExact`.
- A channel accepted while `doneCh` closes may be forwarded to a closed output: `LateChannelPanics`, `RaceIsExact`.
- SortedResourceGroups drains the graph it sorts, because the clone it works on shares the sets. A second call reports
  the same failure but not always the same groups: `SecondSortDiffers`, `SecondSortIsExact`.

The kind table lists `Daemonset`, which is no kind; the model does the same. The implicit dependencies are honoured by
pruning as well (`DependentsArePrunedFirst`); an explicit one, which the README of the repository promises for applies
only, exactly if the dependency is `Less` (`PrunedFirstExactly`).

## Model

| member | source | states |
|---|---|---|
| Metadata.AcceptsMatches | pkg/resource/resourcemetadata.go:73-91 | a key is accepted exactly when the anchored pattern matches it |
| Metadata.SplitIsUnique | pkg/resource/resourcemetadata.go:73-91 | the pattern cannot match one key with two different splits into four fields |
| Metadata.PrintThenParse | pkg/resource/resourcemetadata.go:58-91 | for every id, parsing its key gives the id back if and only if its fields have key characters and its name has neither `__` nor `_:` |
| Metadata.ParseThenPrint | pkg/resource/resourcemetadata.go:58-91 | every accepted key is the key of the id it parses to, and that id is well formed |
| Metadata.ParsesExactly | pkg/resource/resourcemetadata.go:58-91 | a key is read as an id if and only if the id is well formed and the key is the one it is printed as |
| Metadata.WellFormedIs | pkg/resource/resourcemetadata.go:58-91 | the well-formed ids in plain characters: which characters each field may have, how a name starts, and which pairs of characters a name must not contain |
| Metadata.KeyText | pkg/resource/resourcemetadata.go:58-68 | the key is namespace, name, group and kind in this order, joined by underscores, with each colon of the name replaced by two underscores |
| Metadata.KeysAreInjective | pkg/resource/resourcemetadata.go:73-91 | two different keys never denote one id |
| Metadata.UnescapeEscape | pkg/resource/resourcemetadata.go:64-65 | the left-to-right replacement undoes the escaping of colons exactly on names without `__` and `_:` |
| Annotation.Unmarshal | pkg/resource/dependency.go:83-94 | returns the references before the first malformed one, and its error |
| Annotation.ParseReferenceIs | pkg/resource/dependency.go:113-156 | a text is read as a reference if and only if, without outer white space, it is `group/kind/name` or `group/namespaces/namespace/kind/name` with no `/` in a field |
| Annotation.RejectedReferences | pkg/resource/dependency.go:119-143 | it is rejected exactly if it has neither form: its fields are not three, and not five of which the second is `namespaces`; the error for the latter case |
| Annotation.UnmarshalIsPrefix | pkg/resource/dependency.go:83-94 | the parts between commas are read in order, each by its text; the error is None exactly if all are read, and else the next part is no reference |
| Annotation.PaddedList | pkg/resource/dependency_test.go:53-78 | white space around the parts of a written list of clean references does not change what is read |
| Annotation.BlankAfterComma | pkg/resource/dependency_test.go:53-78 | two clean references written with a comma and a blank in between are read as the two |
| Annotation.Marshal | pkg/resource/dependency.go:98-109 | the joined references, or the error of the first one without kind or name |
| Annotation.MarshalOne | pkg/resource/dependency.go:140-169 | the text of one reference, without and with a namespace |
| Annotation.MarshalAppend | pkg/resource/dependency.go:98-109 | the text of a longer list is that of its parts with a comma in between |
| Annotation.ListRoundTrip | pkg/resource/dependency.go:83-169 | a writable list is read back unchanged if and only if no field holds `/` or `,` and no reference starts or ends with white space |
| Annotation.WritableLists | pkg/resource/dependency.go:98-156 | a list is writable exactly when every reference has a kind and a name |
| Annotation.AnnotatedObject.SetExplicitDependencies | pkg/resource/dependency.go:54-72 | the new annotations; nothing is written for an empty or malformed list |
| Annotation.AnnotatedObject.ExplicitDependencies | pkg/resource/dependency.go:44-50 | what reading the annotation returns, none without the annotation |
| Annotation.SetThenRead | pkg/resource/dependency.go:44-72 | setting then reading any list on any object: when it returns the list, and that other annotations stay |
| Objects.ServicesMetadataFromWebhook | pkg/resource/unstructured.go:80-103 | each called service once per webhook entry naming it; entries without a decodable service are skipped |
| Objects.CallsServiceIs | pkg/resource/unstructured.go:80-103 | a configuration calls an id exactly if it is that of a core Service and some entry has its name and namespace |
| Objects.CallCountIs | pkg/resource/unstructured.go:80-103 | the multiplicity of a service is the number of entries with its name and namespace |
| Ordering.BuildRankTable | pkg/resource/sort.go:90-160 | the loop fills the table the rank is read from, whatever the list |
| Ordering.RankBounds | pkg/resource/sort.go:78-160 | Namespace ranks below every other kind, listed kinds below unlisted ones |
| Ordering.LessTrichotomy | pkg/resource/sort.go:59-88 | of two ids exactly one is less, or they are equal |
| Ordering.LessTransitive | pkg/resource/sort.go:59-88 | `less` is transitive, across group/kind, namespace and name |
| Sorting.OneKindIsSorted | pkg/resource/sort.go:59-74 | in a sorted group, objects of one group and kind ascend by namespace, and within a namespace by name |
| Sorting.KindsAreSorted | pkg/resource/sort.go:78-160 | the kinds of the table come first and in its order; the others ascend by group and within a group by kind |
| Text.LexLessAtFirstDifference | pkg/resource/sort.go:66-87 | the string comparison these orders rest on: after a common prefix one string ends or has the smaller character |
| Sorting.Sort | pkg/resource/sort.go:25-44 | an ordered permutation, for any strict total order |
| Sorting.OrderedIsUnique | pkg/resource/sort.go:25-44 | with distinct metadata there is one ordered arrangement, so an unstable sort is deterministic |
| Sorting.ReversedOrderIsReverse | pkg/client/queuebuilder.go:98-100 | sorting in reverse gives the exact reverse of the sorted list |
| Sorting.PruningOrder | pkg/client/queuebuilder.go:98-100 | in a pruning order Namespaces come after everything else, CRDs after every kind but Namespace, ResourceQuota, LimitRange and CRD, Services after the webhook configurations |
| Sorting.DependentsArePrunedFirst | README.md:77-85 | every object is pruned before its namespace, its CRD and the services it calls as a webhook |
| Sorting.PrunedFirstExactly | pkg/client/queuebuilder.go:98-100 | of two objects with different metadata the greater one is pruned first, so a dependency is pruned last exactly if it is less |
| Layering.LayerIsLongestPath | pkg/resource/graph.go:52-82 | a vertex is in group k exactly when its longest dependency path has k edges |
| Layering.LayersPartition | pkg/resource/graph.go:52-82 | every vertex is in exactly one group or left over, and no group is empty |
| Layering.ResidueEdges | pkg/resource/graph.go:60-71 | the left-over edges are the entry edges between left-over vertices |
| Layering.ResidueReachesCycle | pkg/resource/graph.go:60-71 | the vertices left over are exactly those from which a cycle can be reached |
| Layering.EmittedAreAcyclic | pkg/resource/graph.go:52-82 | on success and on failure the emitted vertices are exactly those from which no cycle can be reached |
| Layering.SuccessIsAcyclic | pkg/resource/graph.go:48-85 | nothing is left over exactly when the graph has no cycle |
| Layering.LayersAreValid | pkg/resource/graph.go:52-82 | the groups of an acyclic graph put every vertex after all it depends on, once |
| Layering.SecondSortIsExact | pkg/resource/graph.go:49-78 | sorting the drained graph again leaves the same vertices over, and gives the same groups if and only if no emitted vertex depended on anything |
| Layering.LayersAreMinimal | pkg/resource/graph.go:52-82 | no valid grouping uses fewer groups or places any vertex earlier |
| DependencyGraphs.DependencyGraph.AddVertex | pkg/resource/graph.go:34-38 | the new edge map; an existing vertex keeps its edges |
| DependencyGraphs.DependencyGraph.AddEdge | pkg/resource/graph.go:40-46 | both ends become vertices and exactly one edge is added |
| DependencyGraphs.DependencyGraph.SortedResourceGroups | pkg/resource/graph.go:48-85 | the groups are the sorted layers of the graph at entry; an error occurs exactly if something is left over and lists each left-over edge once; afterwards the graph has the edges among the left-over vertices only |
| DependencyGraphs.ListedDependencies | pkg/resource/graph.go:72-82 | the error names exactly the left-over dependencies, each from the dependent to what it depends on |
| GraphBuilder.DependenciesForObj | pkg/resource/graph.go:154-182 | the held objects referred to, in the order of the references, and the errors: one for a malformed annotation, then one for each external reference |
| GraphBuilder.NewDependencyGraph | pkg/resource/graph.go:88-152 | nil exactly if some held object has a malformed or external reference, with exactly those errors; else a graph with the input as vertices and the declared edges |
| GraphBuilder.LastMatchIsLast | pkg/resource/graph.go:97-120 | a lookup filled in list order holds the last matching object |
| GroupOrder.GraphIsDetermined | pkg/resource/graph.go:88-152 | one graph meets the declaration, and every edge ends at a vertex |
| GroupOrder.GroupsAreDetermined | pkg/resource/graph.go:54-81 | with distinct metadata the groups are the same for every map iteration order and every outcome of the sort |
| GroupOrder.GroupsIgnoreInputOrder | pkg/resource/graph.go:97-145 | with distinct CRD kinds and Namespace names too, also for every order of the input |
| QueueBuilders.QueueBuilder.Build | pkg/client/queuebuilder.go:64-122 | succeeds exactly on inputs with good references and an acyclic graph; the queue, the sorted groups and the reversed prune list; which error otherwise |
| QueueBuilders.QueueIs | pkg/client/queuebuilder.go:78-119 | the queue task by task, with a wait task after each apply task exactly if waiting is asked for and this is no dry run, and a prune task exactly if pruning is on and there is something to prune |
| QueueBuilders.ErrorsAreExact | pkg/resource/graph.go:154-182 | for inputs with distinct ids, which errors there are: one for each object whose annotation has a malformed part, and one from each object to each id that it refers to and no object has |
| QueueBuilders.AppliedOnce | pkg/client/queuebuilder.go:78-96 | every vertex of a graph of which nothing is left over, and nothing else, is in exactly one apply task, once |
| QueueBuilders.InputAppliedOnce | pkg/client/queuebuilder.go:67-96 | so the queue applies exactly the input, each object once |
| QueueBuilders.DependencyComesFirst | pkg/client/queuebuilder.go:78-96 | for every edge of the graph: the dependency is in a strictly earlier apply task and, if waiting is asked for and this is no dry run, its wait task comes in between |
| QueueBuilders.EndToEndOrder | pkg/resource/graph.go:102-145 | for inputs with distinct ids and owners, in the fields of the objects: Namespaces, CRDs, webhook services and explicit dependencies are applied first and, outside dry runs with waiting, waited for |
| QueueBuilders.RulesAreExact | pkg/resource/graph.go:105-144 | with distinct ids alone: which of those are dependencies, each rule with its exact condition in the fields of the two objects |
| Events.StatusIsLastReport | pkg/client/runner_state.go:40-63 | the status of an object is the one whose report is in the log with no later report about the object that sets one |
| Clusters.Cluster.Patch | pkg/runner/task/apply.go:165-179 | an apply request: what is owned after it, and which request was made |
| Clusters.Cluster.Delete | pkg/runner/task/prune.go:87 | a delete request: what is owned after it; not found only if the id is not in the cluster |
| Inventory.SaveThenLoad | pkg/inventory/configmap.go:116-134 | loading what was saved gives exactly the saved ids if and only if they are all well formed |
| Inventory.ConfigMapStore.DataForStore | pkg/inventory/configmap.go:127-135 | one empty entry per object key |
| Inventory.ConfigMapStore.Load | pkg/inventory/configmap.go:106-123 | the ids of all keys that parse; a missing ConfigMap is an empty inventory |
| Inventory.ConfigMapStore.Save | pkg/inventory/configmap.go:64-80 | a successful real save stores exactly the keys of the saved objects; otherwise nothing changes |
| Inventory.Manager.ObjectsForStatus | pkg/inventory/manager.go:60-69 | exactly the objects with the status |
| Inventory.Manager.IntersectedObjects | pkg/inventory/manager.go:150-164 | the objects of the first set whose id occurs in the second list |
| Inventory.Manager.SaveCurrentInventoryState | pkg/inventory/manager.go:118-136 | the new inventory by status, intersected with the starting ids for failed and skipped objects, and what is stored |
| Inventory.InventoryFromLog | pkg/inventory/manager.go:118-136 | the saved objects read off the event log: last reported applied, delete failed, or failed or skipped and loaded |
| Tasks.RunnerState.SendEvent | pkg/client/runner_state.go:40-48 | the event is appended and the manager's map stays the fold of the log |
| Tasks.RunFilters | pkg/runner/task/apply.go:81-95 | filters are asked in order until one fails or drops the object; the result and the event are decided by the answers |
| Tasks.RunApply | pkg/runner/task/apply.go:77-120 | each object's outcome is decided by the answers received for it; events, requests and new ownership per handled object, with no request where none can be sent; all objects are handled unless an unsupported media type ends the loop |
| Tasks.ApplyReports | pkg/runner/task/apply.go:77-120 | an object is reported successful, skipped, failed or pending exactly if its turn ended in one of the matching outcomes |
| Tasks.PendingComesFirst | pkg/runner/task/apply.go:81-117 | every success, and every failure but that of a filter, directly follows the pending report of its object, and nothing stays pending |
| Tasks.ApplyIsDecided | pkg/runner/task/apply.go:77-120 | the answers received by an apply task decide the outcomes of its objects: no two outcome lists fit the same answers |
| Tasks.OutcomeIsLastReply | pkg/runner/task/apply.go:81-118 | the outcome of an object is read off its last answer, which follows the passes of all filters and, for a request, the go-ahead to send it |
| Tasks.WaitTaskRun.Run | pkg/runner/task/wait.go:46-97 | the loop takes messages while something is watched and ends early only if the channel closes; exactly the messages for still-watched ids are forwarded, what is still watched at the end, and when the REST mapper is reset |
| Tasks.WatchedByLog | pkg/runner/task/wait.go:49-58 | watched are the ids of exactly those objects whose last report is not a failed or skipped apply |
| Tasks.ForwardsWhatIsWaitedFor | pkg/runner/task/wait.go:67-92 | a message is forwarded exactly if its id is watched and no success of it was received before; unsettled are exactly the watched ids without a success |
| Tasks.MapperIsReset | pkg/runner/task/wait.go:78-97 | the REST mapper is reset exactly if a watched CRD was reported successful |
| Tasks.WatchedAreSettled | pkg/runner/task/wait.go:67-92 | an id is unsettled at the end exactly if no success was forwarded for it |
| Tasks.NothingAfterSuccess | pkg/runner/task/wait.go:74-86 | after the success of an id nothing more is forwarded for it |
| Tasks.RunPrune | pkg/runner/task/prune.go:45-59 | one delete per object in order, except where the mapping fails, with the outcome the answer gives; a missing object gets no status; what cannot be owned any more |
| Tasks.PruneReports | pkg/runner/task/prune.go:45-59 | an object is reported deleted, failed or pending exactly if it had the matching result; one already gone stays pending |
| Tasks.PrunePendingFirst | pkg/runner/task/prune.go:45-59 | every result directly follows the pending report of its object |
| Tasks.PruneIsDecided | pkg/runner/task/prune.go:45-90 | likewise the answers received by a prune task |
| Tasks.PruneIsLastReply | pkg/runner/task/prune.go:48-90 | the result of pruning an object is the last answer for it: that nothing can be sent, or the one to the delete request |
| Tasks.RunInventory | pkg/runner/task/inventory.go:34-60 | the two events around the save, as the answer to it decides, and the stored inventory |
| Runner.RunWithQueue | pkg/runner/runner.go:31-50 | a prefix of the queue runs in order, all of it unless cancelled; outcomes are decided by the logged answers; log, requests, ownership and inventory are functions of the outcomes, and every executed wait ended as it promises |
| Appliers.FindObjectsToPrune | pkg/client/applier.go:215-233 | the objects of the first list, in order, whose ids are not in the second |
| Appliers.PruneListAppend | pkg/client/applier.go:215-233 | what is pruned of two lists in a row is what is pruned of the one and then of the other, so the order is kept |
| Appliers.Applier.LoadObjectsFromInventory | pkg/client/applier.go:194-212 | every stored id was found, once, or answered to be missing, and then it is not owned; the load fails exactly if some answer is an error |
| Appliers.Applier.Run | pkg/client/applier.go:66-137 | a whole run takes a RunStep: plan, effect on inventory and ownership, event log and requests, with outcomes decided by the logged answers; the queue is the one built for the local objects; no queue starts exactly if a read failed, the preparation failed, or the input cannot be built |
| RunStatuses.FinalStatusIsRecorded | pkg/client/runner_state.go:50-63 | after any part of the queue the manager's map holds the status decided by the outcomes |
| Orphans.InventoryAfterRun | pkg/client/applier.go:121-133 | a run replaces the stored inventory by the final one if it saves for real, and otherwise leaves it alone |
| Orphans.SavedRunLeavesNoOrphans | pkg/inventory/manager.go:118-136 | a run that saves without bail-out on well-formed ids keeps everything owned in the inventory |
| Orphans.NoOrphansEver | pkg/client/applier.go:79-133 | after any history of clean runs and actions of other clients, every owned id is in the stored inventory |
| Orphans.UnsavedRunKeepsInventory | pkg/runner/runner.go:35-49 | a run cut short loses no stored id; its orphans are still-owned ids it applied that were not stored |
| Scenarios.UnsavedRunIsExact | pkg/runner/runner.go:35-49 | no run on given objects that ends before it saves can leave an orphan, if and only if it is a dry run or all their ids are in the inventory already |
| Scenarios.SavedRunIsExact | pkg/runner/task/apply.go:108-116 | no saved run on given objects can leave an orphan, if and only if all their ids can be stored and of every owned id among them some object does not stand behind another in its sorted group |
| Orphans.SavedRunForgets | pkg/runner/task/apply.go:108-116 | what one saved run forgets: exactly the still-owned local ids that no apply task reached, which needs a bail-out |
| Orphans.IllFormedIsOrphan | pkg/inventory/configmap.go:116-120 | an owned id whose key is not read back is an orphan |
| Orphans.FinalInventoryIsSound | pkg/inventory/manager.go:118-136 | the saved inventory holds no id that was neither loaded nor applied |
| Orphans.DeletedAreDropped | pkg/inventory/manager.go:118-136 | it holds no id for which a delete of the run succeeded |
| Orphans.PruneSafety | pkg/client/applier.go:96-124 | every delete is for an inventoried id found on the cluster that no local object has, every apply is for a local id, and all requests are dry-run requests exactly if the run is a dry run |
| Orphans.RemovedArePruned | README.md:46-47 | in a run that reaches the end of its queue every inventoried object found on the cluster that is no longer local is deleted by a request, or stays in the inventory |
| Orphans.LocalAreRequested | pkg/runner/task/apply.go:77-120 | in a run that reaches the end of its queue an apply request is made for every local object that no filter stopped, that could be sent, and that was not behind a bail-out |
| Orphans.DeletesWereApplied | pkg/client/applier.go:79-133 | over any history from an empty inventory, clean or not, every delete is for an id that an earlier run applied, provided no local id is read back as another one |
| Scenarios.ForeignDeletesAreExact | pkg/resource/resourcemetadata.go:58-68 | for any set of objects: runs on them can delete an id that was never applied if and only if some accepted input of them holds an id that is read back as another one |
| Metadata.MisreadNames | pkg/resource/resourcemetadata.go:58-68 | an id made of key characters is read back as another one exactly if its name contains `__` or `_:` |
| Orphans.NeverAppliedAndDeleted | pkg/client/queuebuilder.go:78-108 | no run requests both an apply and a delete of one id |
| Orphans.PruneOrderIsReversed | pkg/client/queuebuilder.go:98-108 | a run prunes in the exact reverse of the `less` order |
| Orphans.EarlierGroupsSettle | pkg/runner/task/wait.go:49-92 | if waiting is asked for and this is no dry run: before any later apply, prune or inventory task, every object of a group was handled without being applied, or the wait task of its group forwarded a success for it or saw its poller channel close; the latter for every applied object |
| Orphans.DependenciesSettleFirst | pkg/client/queuebuilder.go:78-95 | the same for every dependency of an object, before the object is applied |
| Multiplexer.MultiplexerIsCorrect | pkg/poller/multiplexer.go:34-89 | in every state of every harmless interleaving: no send on the closed output, counter = live forwarders, and a closed output is the exact order-preserving merge of all registered inputs, all closed and drained |
| Multiplexer.OutputIsPrefixMerge | pkg/poller/multiplexer.go:79-86 | at any time each input has been forwarded in order, up to the one message its forwarder holds |
| Multiplexer.RaceIsExact | pkg/poller/multiplexer.go:70-77 | closing doneCh makes a send on the closed output possible if and only if a call is between check and increment with a channel that may still deliver |
| Deployments.DeployStatusCheck | pkg/poller/statuschecker.go:399-433 | failed exactly with a deadline-exceeded condition, current exactly when rolled out without one |
| Deployments.StatusCheck | pkg/poller/statuschecker.go:108-156 | current exactly when not deleted, generation absent or observed, no deadline exceeded, the four comparisons with `spec.replicas`, or with 1 where that is absent, hold, and the progress and availability conditions are there; failed and terminating likewise |
| Deployments.ReplicasStatusResult | pkg/poller/statuschecker.go:437-468 | no verdict exactly when status = wanted, updated and ready >= wanted, available >= updated, where wanted is `spec.replicas` or else 1 |
| Deployments.OneReplicaIsDefault | pkg/poller/statuschecker.go:438-443 | a Deployment without `spec.replicas` is judged as one that wants one replica |
| Deployments.VerdictIgnoresOrder | pkg/poller/statuschecker.go:409-418 | the verdict is the same for every order of the conditions |
| Counterexamples.DoubleUnderscoreIsLost | pkg/resource/resourcemetadata.go:58-68 | an id named `a__b` is read back as one named `a:b` |
| Counterexamples.SecondSortDiffers | pkg/resource/graph.go:49-78 | of one object that depends on another the first sort makes two groups, a second one group |
| Counterexamples.OnlyLastNamespaceIsDependency | pkg/resource/graph.go:97-120 | of two Namespaces of one name only the last in the input is a dependency |
| Counterexamples.CutShortForgets | pkg/runner/runner.go:35-49 | a first run on one plain object, cut short after it applied it, leaves it an orphan |
| Counterexamples.BailOutForgets | pkg/runner/task/apply.go:108-116 | a saved run on two independent objects that met an unsupported media type forgets an inventoried object that is still owned |
| Counterexamples.ForeignIsDeleted | pkg/resource/resourcemetadata.go:58-68 | after a run that applied `a__b`, a run without objects deletes an `a:b` that no run applied |
| Scenarios.CleanRunExists | pkg/client/applier.go:79-133 | any accepted input with well-formed ids has a clean run that applies, owns and saves all of it, so NoOrphansEver is not vacuous |
| Counterexamples.LateChannelPanics | pkg/poller/multiplexer.go:43-86 | a concrete interleaving that sends on the closed output |

## Left out

- The Kubernetes API, REST mapping, informers, clients and the resource cache: each request has an arbitrary outcome; one cache lives for one run.
- Generators and mutators: a run starts from what they return, or from their failure; object contents do not change afterwards.
- Filters: each gives an arbitrary verdict for each object.
- Decoding of CRDs, webhook configurations and Deployments: the model starts from decoded records, or from the fact that decoding failed.
- Server-side apply of the ConfigMap: a successful save replaces its data, as it does when no other field manager writes to it; two runs at once on one inventory are not modelled.
- DeleteRemoteInventoryIfPossible and FindCRDs: no run calls them.
- The migration of managed fields after an apply and the warnings it prints: its outcome is never reported.
- Message texts, event strings, timing, and the version part of a kind.
- Other kinds in the status checker, and custom checkers.
- The table of kinds is data: its entries are copied, and only the positions of Namespace, ResourceQuota, LimitRange, CRD, Service and the webhook configurations are the subject of results.
- Tasks.WaitTaskRun.Run: covers every wait that ends; a poller that neither closes its channel nor reports success is not covered.
- Tasks.PruneOne: a REST mapping that fails is taken to be reported as an error, never as "not found".
- Clusters.Cluster.Patch: an error answer means the request was not applied; a request that took effect although its answer was lost is not modelled.
- Multiplexer.MultiplexerIsCorrect: an input channel is a queue of what was put into it, receiving on the output happens with the send; whether the run ever ends is not stated. It assumes fewer than 2^31 simultaneous forwarders.
- DependencyGraphs.DependencyGraph.SortedResourceGroups: takes the comparison as a parameter; the queue builder passes `less`, as the source always does.
- QueueBuilders.QueueBuilder.Build: the queue is a list of values; the state of a wait task is created when it runs. The prune list is a sequence that is replaced, not a slice sorted in place.
- Annotation.AnnotatedObject.SetExplicitDependencies: a nil annotations map is an empty one.
- Sorting.Sort: any method that meets the contract of sort.Sort would do; the algorithm is not the library's.
