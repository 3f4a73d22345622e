# A verified model of the aggregating API server

The system makes several Kubernetes clusters look like one. A proxy storage fans reads out
over its member clusters, marks every object with the cluster it came from, and routes writes
by that mark. A watch merges the members' watches into one stream. A server tracks the member
clusters, works out which resources they serve together, and rebuilds its inner API server when
that set changes. Two reconcilers keep the server's membership and the child workloads in line
with `AggregatedAPI` objects.

The Dafny project follows that structure.

| file | what it models |
|---|---|
| `Order.dfy` | results, lexicographic keys, sorting |
| `Metadata.dfy` | objects, the cluster stamp, label selectors and their split |
| `Fleets.dfy` | members as object stores; what locating, listing and each write mean |
| `Storage.dfy` | the storage object whose methods refine those meanings |
| `Writes.dfy` | write frames, read-modify-write, upsert, runs of requests |
| `WatchLogs.dfy` | members as event logs and the watch on one of them |
| `Watcher.dfy` | the aggregate watch as a step system: safety and shutdown |
| `WatchStream.dfy` | what the aggregate watch delivers, and replaying it |
| `Delivery.dfy` | that it does deliver, and what the members' logs say about it |
| `WatchSetup.dfy` | the loop that establishes the remote watches, and the whole of a watch-list watch |
| `Discovery.dfy`, `Union.dfy`, `Install.dfy` | from discovery answers to the served set to the storage map |
| `Server.dfy` | the server's state machine and its watch generations |
| `Sync.dfy` | whether the server serves what its members offer: idle, failed and gated rebuilds |
| `Generations.dfy` | server and watch together |
| `Aggregator.dfy` | the reconciler of the server's membership |
| `Operator.dfy` | the reconciler of the child workloads and its finalizer |

How outside behaviour is represented:

- Iteration over a Go map and the completion order of workers are free choices (`:|`); once a
  worker has failed the others may be cut off.
- A remote call succeeds, fails before its effect or fails after it. Which of these happens is
  a parameter or a free choice.
- A member is an object store for reads and writes, and an event log for watches. A
  resourceVersion is a position in the log.
- Goroutines are steps of a transition system. The channel is unbuffered, so a send and the
  consumer's receive are one step. A cancelled context and a closed Done channel are flags.
- A context made for a watch generation is a number; `cancelled` is the set of those whose
  Done is closed.
- The mutex of the server makes its operations atomic; the operations are the steps of its runs.

Where the code does less than one might expect, the exact condition is proved:

- A list equals the naive answer if and only if every selected member's matches fit the limit,
  which is passed on to each member (`Storages.Storage.List`).
- Stamping is undone by stripping if and only if the object was clean (`Metadata.StripUndoesStamp`).
- The union does not depend on the iteration order if and only if the members agree on singular
  names (`Unions.OrderFreeIffSingularsAgree`); up to singular names it never does.
- Rebuilding with unchanged members is idle, whatever the iteration order, if and only if the
  server is in sync and its members agree on singular names (`Sync.RebuildIdleIff`). If they do
  not agree, rebuilding a server in sync may end every watch, and may fail
  (`Sync.DisagreementDisrupts`); in `Sync.DisruptedRun` setting a cluster again with nothing
  changed does so.
- A failed rebuild leaves the server out of sync, unless it was in sync and members disagree on
  a singular name (`Sync.FailsInSyncIff`). A resync that finds the members unchanged does not
  retry (`Sync.FailedRebuildIsNotRetried`); `Sync.OutOfSyncRun` is a run in which the proxy goes
  on answering 404 for that reason.
- Gating a resync on changes makes no difference to a server in sync if and only if the members
  conflict or agree on singular names (`Sync.GatedResyncAgreesIff`).
- A cluster that is set again is served through its new client if and only if that client served
  it before or what was served is not the union with the new member already
  (`Sync.SetClusterIsExact`); `Sync.StaleClientRun` is a run in which the old client serves on.
- A child workload belongs to its own `AggregatedAPI` while no other existing one has the same
  child name (`Operator.NoOrphans`), and a pass keeps its promise while no other one of that
  child name has existed (`Operator.Cluster.Reconcile`). For every two keys that share a child
  name both fail in some run (`Operator.SharedNameBreaksOwnership`,
  `Operator.SharedNameLosesChildren`), and `Operator.ChildNamesCollide` says exactly which do.

## Model

| member | source | states |
|---|---|---|
| `Metadata.StripUndoesStamp` | pkg/apiserver/storage/metadata.go:11-36 | stripping undoes stamping exactly on objects without aggregator metadata, empty and absent maps being the same; a stripped object is clean, a stamped one names its source twice, and neither differs from the object in anything but the aggregator's key |
| `Metadata.Unstructured.Stamp` | pkg/apiserver/storage/metadata.go:11-25 | the in-place change of both maps is the stamp of the object's value and nothing else |
| `Metadata.Unstructured.Strip` | pkg/apiserver/storage/metadata.go:28-36 | the in-place change removes the aggregator's keys and nothing else |
| `Metadata.PushdownPreservesMeaning` | pkg/apiserver/storage/metadata.go:39-69 | for every conjunction of requirements, the selector holds of the stamped labels iff the cluster half accepts the cluster and the remote half holds of the labels as stored, even if those already carry the cluster label |
| `Metadata.SplitClusterSelector` | pkg/apiserver/storage/metadata.go:39-69 | the loop's two selectors together mean the original one on every stored object of every cluster |
| `Fleets.LocateFailsClosed` | pkg/apiserver/storage/reader.go:53-93 | the unpinned verdict is an object iff all probes answered and exactly that cluster has it, NotFound iff all answered and none has it, Conflict with the sorted holders iff all answered and several have it, and an internal error iff some probe failed |
| `Fleets.LocateMeans` | pkg/apiserver/storage/reader.go:53-93 | the same against what the members store: an object iff every member answers and exactly that one holds it, NotFound iff all answer and none does, Conflict iff several do, an internal error iff one is down |
| `Fleets.LocatePinned` | pkg/apiserver/storage/reader.go:35-52 | with a pin only that member counts: its object, NotFound, its error when it is down, BadRequest iff it does not serve the resource |
| `Storages.Storage.ProbeAll` | pkg/apiserver/storage/reader.go:53-93 | in every completion order, and with workers cut off after a failure, the concurrent probe gives that verdict |
| `Storages.Storage.Locate` | pkg/apiserver/storage/reader.go:35-94 | locating, pinned or not, is the function Fleets.Locate with its error cases, of the name in the request's namespace when the resource is namespaced and the request has one, and of the name in the empty namespace otherwise |
| `Storages.Storage.Get` | pkg/apiserver/storage/reader.go:23-30 | returns the object located in the request's namespace, or without one in the empty one, stamped with the cluster it was located in, or locate's error |
| `Storages.Storage.List` | pkg/apiserver/storage/reader.go:97-148 | fails iff a selected member is down; without a limit the items are exactly the stamped objects that the label and field selectors accept, of the request's namespace for a namespaced request and of all namespaces otherwise; with one, each selected member contributes as many as match, up to the limit, and the whole equals the naive answer iff all fit; distinct, sorted by namespace, name and cluster |
| `Fleets.ListIsFunction` | pkg/apiserver/storage/reader.go:112-144 | no completion order shows in the answer of a list without truncation |
| `Storages.Storage.Create` | pkg/apiserver/storage/writer.go:42-77 | for a namespaced request in its namespace, otherwise in the empty one: the new fleet and the answer are those of the routing rule: the annotated member, or the only one; the object stored is stripped, the answer stamped |
| `Storages.Storage.Update` | pkg/apiserver/storage/writer.go:92-138 | for a namespaced request in its namespace, otherwise in the empty one: the new fleet, the answer and the created flag of an update with its upsert branch; the status path shares it without the upsert |
| `Storages.Storage.Delete` | pkg/apiserver/storage/writer.go:141-158 | deletes the name in the request's namespace, otherwise in the empty one, at the located member only; ambiguous names conflict |
| `Storages.Storage.DeleteCollection` | pkg/apiserver/storage/writer.go:161-208 | members not selected and objects of other namespaces than a namespaced request's are untouched, selected members lose matching objects only, it fails iff a selected member failed, and on success exactly the objects that the selectors accept, in that namespace or in all, are gone and reported |
| `Fleets.DeleteCollectionIsExact` | pkg/apiserver/storage/writer.go:161-208 | after a success an object is gone iff its stamped form satisfies the whole query; the rest is unchanged |
| `Writes.CreateFrame` | pkg/apiserver/storage/writer.go:42-77 | a create changes at most one name in one member |
| `Writes.CreateRoutes` | pkg/apiserver/storage/writer.go:42-77 | without faults a create succeeds iff it has a target, the annotated member or the only one, that lacks the name; the target then holds the object without aggregator metadata and the answer is that object stamped |
| `Writes.CreateOutcome` | pkg/apiserver/storage/writer.go:42-77 | which answer every create gives, under every fault: other types, no target, rejection, lost calls, unusable and taken names are errors that change nothing, a lost answer is an error after the effect, all else succeeds |
| `Writes.UpdateLandsWhereLocated` | pkg/apiserver/storage/writer.go:92-138 | an update, status or not, changes at most one name, in the member where the object was located, whatever cluster the patched object names, and answers with that member as source |
| `Writes.UpdateOutcome` | pkg/apiserver/storage/writer.go:110-138 | which answer every update of a located object gives, under every fault: it succeeds iff the new object can be made, is accepted and names an existing object of that member; every error but a lost answer leaves the fleet alone |
| `Writes.UpdateNotLocated` | pkg/apiserver/storage/writer.go:92-108 | locate's error is passed on and nothing changes, except that NotFound with leave to create is a create of what the update makes of a new object |
| `Writes.UpdateStaysAtPin` | pkg/apiserver/storage/writer.go:79-108 | an update that makes of a new object one naming a cluster, typed or not, touches no other member, and is refused if that cluster does not serve the resource |
| `Writes.DeleteFrame` | pkg/apiserver/storage/writer.go:141-158 | a delete changes at most the one name in one member; on success it is gone from the only member that had it and the answer is what was there, stamped |
| `Writes.DeleteOutcome` | pkg/apiserver/storage/writer.go:141-158 | which answer every delete gives, by what the members store and under every fault: without faults it succeeds iff exactly one member has the name, conflicts iff several do, and rejection leaves the fleet alone |
| `Writes.WriteBack` | pkg/apiserver/storage/writer.go:79-138 | an object obtained by Get and written back, with or without forceAllowCreate, targets the cluster Get found it in, whatever the fleet has become, restores what was read (empty maps being absent ones), and without faults succeeds iff that cluster still serves the resource and has the object or may create it |
| `Writes.UpsertAgreesWithPin` | pkg/apiserver/storage/writer.go:92-108 | an upsert creates only in the pinned cluster and only if it lacks the name; without a pin only if exactly one cluster serves the resource and it lacks the name |
| `Writes.UpsertCreates` | pkg/apiserver/storage/writer.go:42-108 | without faults the upsert creates there iff that cluster lacks the name |
| `Writes.CleanStep` | pkg/apiserver/storage/status.go:41-72 | each request, status updates included, keeps the members clean and answers with objects that name their true source |
| `Writes.MembersStayClean` | pkg/apiserver/storage/writer.go:42-208 | over every run of reads, writes through the proxy, each in its own namespace, and clean direct writes, under all faults, no member object carries aggregator metadata, and every object a client receives names in annotation and label the member it came from |
| `WatchLogs.StreamTracksView` | pkg/apiserver/storage/watcher.go:42-77 | folding a member's reports over its listing gives its selected contents at the log position they cover: no gap and no overlap between list and watch |
| `WatchSetup.Establish` | pkg/apiserver/storage/watcher.go:26-96 | while the members' logs grow, with or without watch-list: it fails iff a call to a member failed; on success each picked member has one running watch, of the request's namespace for a namespaced request and of all namespaces otherwise, from the position it was listed at, which was the end of its log at some time during the call, nothing else was opened, and the initial events replay to the listed contents, followed by the bookmark; a failure leaves every opened watch stopped and the context cancelled |
| `Watcher.ChannelSafety` | pkg/apiserver/storage/watcher.go:103-132 | in every state of every run: no send and no second close once the channel is closed, closed implies all forwarders ended and all remotes stopped, an ended forwarder implies the context is cancelled |
| `Watcher.ShutdownProgress` | pkg/apiserver/storage/watcher.go:103-132 | while a watch is told to end and has not closed, some goroutine step is enabled that does not need the consumer, and it is the closer's until the remotes are stopped |
| `Watcher.WorkDecreases` | pkg/apiserver/storage/watcher.go:155-187 | every goroutine step decreases the measure of pending events and live goroutines, and once the remotes are stopped no other step increases it |
| `Watcher.ShutdownTerminates` | pkg/apiserver/storage/watcher.go:103-132 | once the remotes are stopped, no run has more goroutine steps than the measure |
| `Watcher.ShutdownCloses` | pkg/apiserver/storage/watcher.go:103-132 | from every state in which a watch was told to end there is a run of its own goroutines, none of its steps waiting for the consumer, no longer than the measure, that closes the channel |
| `Watcher.CloserTerminates` | pkg/apiserver/storage/watcher.go:121-132 | in every run the closer takes a bounded number of steps, so the remotes do get stopped however much they send |
| `Watcher.StuckMeansClosed` | pkg/apiserver/storage/watcher.go:103-132 | a reachable cancelled state in which nothing can move without the consumer has its channel closed |
| `WatchStream.StreamShape` | pkg/apiserver/storage/watcher.go:90-187 | in every state of every run: the initial events in order, then live events only; from each member a prefix of its bookmark-free stamped stream; one bookmark, the last initial event; at most one received event per member undelivered, given up only after cancellation |
| `Delivery.Delivers` | pkg/apiserver/storage/watcher.go:103-187 | from every state of every run without cancellation or an ended member watch, steps of the fan-in and the forwarders alone, at most as many as the measure, bring the client all initial events and everything the members' watches have delivered |
| `Delivery.StuckMeansDelivered` | pkg/apiserver/storage/watcher.go:103-187 | and in every such state in which fan-in and forwarders can do no more it is all delivered, whatever steps led there |
| `Delivery.WatchFollowsLog` | pkg/apiserver/storage/watcher.go:60-187 | in every state of every run, plain watch or watch-list: the object events delivered from a member are, in order and marked with the cluster, the additions, modifications and deletions of its selected contents that its log records from the listed position to the position reached |
| `Delivery.CatchesUp` | pkg/apiserver/storage/watcher.go:60-187 | from every state of every run without cancellation or an ended member watch: once the members' watches have read on, goroutine steps bring the client exactly the changes of each member's selected contents from the listed position to the end of its log |
| `Delivery.EndedMemberEndsWatch` | pkg/apiserver/storage/watcher.go:155-187 | from every state of every run in which some member's watch has ended, the goroutines, with a client that receives, close the channel in at most as many steps as the measure |
| `WatchStream.WatchListReplay` | pkg/apiserver/storage/watcher.go:52-119 | after the bookmark, in every state of every interleaving, replaying the delivered events by cluster, namespace and name gives exactly each member's selected contents at the log position its delivered events account for |
| `WatchSetup.WatchListServesQuery` | pkg/apiserver/storage/watcher.go:21-119 | the same against the query: the replay is "stamp everything, keep what the whole selector accepts" over all clusters, picked or not |
| `Discovery.FromDiscovery` | pkg/apiserver/discovery.go:26-53 | the loops over lists and resources, with the parse error, compute the specified resources |
| `Discovery.ResolvedIsExact` | pkg/apiserver/discovery.go:26-80 | a GVR is offered iff discovery lists it as a non-subresource and a selector takes it; no subresource name gets through |
| `Discovery.ResolvedDescribes` | pkg/apiserver/discovery.go:26-80 | a member contributes exactly the resources that some entry of its discovery describes, with the entry's kind, scope and singular name, a status iff the same list has that subresource, and no clusters, and that a selector takes |
| `Unions.Union` | pkg/apiserver/discovery.go:83-109 | in every iteration order: fails iff two entries for one GVR differ in kind or scope; otherwise one row per offered GVR, with status the disjunction and clusters the sorted multiset of the clusters listing it, sorted |
| `Unions.UnionMeans` | pkg/apiserver/discovery.go:83-103 | every answer: an error iff two offered entries for one GVR differ in kind or scope; otherwise each row has the kind and scope all members offer, a status iff some member has it, and names exactly the offering clusters |
| `Unions.UnionCanonical` | pkg/apiserver/discovery.go:83-109 | two answers both fail or both succeed, and are the same sequence up to singular names, given that the sort key tells the offered resources apart |
| `Unions.OrderFreeIffSingularsAgree` | pkg/apiserver/discovery.go:88-98 | the singular names are the same in all iteration orders iff the members' first entries agree on them |
| `Unions.KeysTellApart` | pkg/apiserver/discovery.go:105-107 | what discovery yields has distinct sort keys unless a version has a comma, so the condition of UnionCanonical is met |
| `Install.InstallResources` | pkg/apiserver/generic.go:66-99 | on success every resource has a storage of its kind, scope, singular name and the given Done, through the given clients, and one for its status iff it has one, and there is no other entry; an error names a resource that caused it |
| `Install.InstallCannotBlameMembers` | pkg/apiserver/generic.go:71-92 | on a union of the members' offers with the members' clients, the missing-client and no-cluster errors cannot occur |
| `Install.BackedIffOffered` | pkg/apiserver/generic.go:66-99 | after installing a union, cluster c backs GVR g iff c offers g |
| `Servers.Server.SwapHandler` | pkg/apiserver/server.go:233-239 | replaces handler and stop function and cancels the previous generation |
| `Servers.Server.Rebuild` | pkg/apiserver/server.go:195-229 | every outcome, failures included, is one the rebuild relation allows; it fails only if members conflict, a resource lacks its name or kind, or the inner server cannot be built |
| `Servers.Server.SetCluster` | pkg/apiserver/server.go:154-169 | is the SetCluster operation: members change before a rebuild that may fail |
| `Servers.Server.RemoveCluster` | pkg/apiserver/server.go:185-191 | is the RemoveCluster operation |
| `Servers.Server.Clusters` | pkg/apiserver/server.go:172-182 | the sorted names of exactly the registered members |
| `Servers.Server.ReadAgain` | pkg/apiserver/server.go:286-295 | every member is resolved again, in any order, failed ones keep their last set, and the flag is set iff some set changed |
| `Servers.Server.Resync` | pkg/apiserver/server.go:280-302 | is the Resync operation: it rebuilds only if something changed |
| `Servers.StepKeepsInv` | pkg/apiserver/server.go:154-302 | every operation, failed or not, keeps the invariant; a failed one leaves handler, resources and live generation alone |
| `Servers.RunKeepsInv` | pkg/apiserver/server.go:195-239 | in every state of every run the uncancelled contexts are exactly the current handler's, the handler is NotFound iff nothing is served, and a cancelled generation stays cancelled |
| `Servers.ReplacedGenerationIsDone` | pkg/apiserver/server.go:233-244 | a request that loaded a handler finds that handler's Done closed at any later state iff the handler was replaced, whenever in between it opens its watch |
| `Servers.EntriesEndWithHandler` | pkg/apiserver/server.go:205-244 | in every state of every run the storage map is what the served resources say, with kind, scope, singular name and status, and the Done of every entry, plain or status, is closed at any later state iff the handler was replaced |
| `Servers.RunServesDiscovery` | pkg/apiserver/server.go:79-94 | in every state of every run, for every cluster and GVR: the served set is the union of what the members offered at the last successful rebuild, and c backs g iff c was registered then and its last resolved discovery lists g as a non-subresource that its selectors take; right after every successful rebuild that is the discovery as of now |
| `Sync.SetClusterIsExact` | pkg/apiserver/server.go:154-229 | right after a successful SetCluster the cluster backs exactly the GVRs its discovery lists and its selectors take, and through the new client iff that client served before or the served set changed, which, when the members agree on singular names and sort keys are distinct, it does iff it was not the union of the new members' offers already |
| `Sync.StaleClientRun` | pkg/apiserver/server.go:205-217 | a run from the empty server: a cluster is set, and set again with a new client and the same discovery; both succeed, the member has the new client and the old one serves |
| `Servers.RunServesClients` | pkg/apiserver/server.go:205-227 | in every state of every run the serving clients are those the members had when the handler was swapped in |
| `Sync.RebuildIdleIff` | pkg/apiserver/server.go:195-229 | every outcome of rebuilding with unchanged members succeeds and changes nothing iff the server is in sync and its members agree on singular names, given distinct sort keys |
| `Sync.DisagreementDisrupts` | pkg/apiserver/discovery.go:88-98 | whenever members of a server in sync disagree on a singular name, a rebuild can replace the handler and cancel the live generation, and can fail, with the server in sync all along |
| `Sync.DisruptedRun` | pkg/apiserver/server.go:200-239 | a run from the empty server: two clusters serve pods under different singular names; setting one of them again with nothing changed replaces the handler and ends its watches |
| `Sync.FailsInSyncIff` | pkg/apiserver/server.go:219-224 | some failed rebuild leaves the server in sync iff it was in sync and its members disagree on a singular name, given distinct sort keys |
| `Sync.FailedRebuildIsNotRetried` | pkg/apiserver/server.go:296-301 | after every failed rebuild the server is in sync iff it was with the new members, a resync that finds the members unchanged leaves it so, and unless the members are at fault rebuilding could bring it in sync, which then changes what is served if it was not |
| `Sync.OutOfSyncRun` | pkg/apiserver/server.go:219-224 | a run from the empty server: SetCluster fails to build, a resync with the same answer succeeds and changes nothing, and rebuilding could serve the cluster |
| `Sync.GatedResyncAgreesIff` | pkg/apiserver/server.go:280-302 | from an in-sync state the change-gated resync has the result of rebuilding unconditionally, in all iteration orders of both, iff the members then conflict or agree on singular names, given distinct sort keys and resources with names and kinds |
| `Sync.GatedResyncAgrees` | pkg/apiserver/server.go:280-302 | the half of it for every two outcomes, for members that conflict or agree on singular names, also for resources without name or kind |
| `Sync.ResyncAgreesUpToSingular` | pkg/apiserver/server.go:280-302 | without agreement on singular names, gated and unconditional resync from an in-sync state serve the same up to those names, whatever the members answered |
| `Sync.RunKeysDistinct` | pkg/apiserver/server.go:195-203 | in every state of every run the condition on sort keys holds unless a version has a comma |
| `Generations.ReplacedWatchShutsDown` | pkg/apiserver/storage/watcher.go:121-132 | once the handler in whose storage map a watch was opened is replaced, the watch can close its channel without its client by a bounded run of its own goroutines, and until its remotes are stopped it is the closer that can move |
| `Generations.DoneIffReplaced` | pkg/apiserver/server.go:216-244 | a watch opened on an entry of a handler's storage map is told to end iff that handler has been replaced, in every run |
| `Aggregator.Run` | pkg/controllers/api-aggregator/aggregatedapi/reconciler.go:54-88 | in every world, stable or not: the two loops, with resyncs in between, are a pass of that world, of which PassMembership and PassClients say what it leaves; every spec cluster is registered or fails, every other registered one is removed, Ready iff nothing failed |
| `Aggregator.RegisterCluster` | pkg/controllers/api-aggregator/aggregatedapi/reconciler.go:90-117 | an unreachable cluster fails without touching the server, a reachable one is set on it with the client made for it, which it then has (PassClients) |
| `Aggregator.PassMembership` | pkg/controllers/api-aggregator/aggregatedapi/reconciler.go:54-88 | after any pass exactly those spec clusters are registered that were before or could be used now, so never one outside the spec; Ready implies all of them are and the server is in sync at its last membership operation |
| `Aggregator.PassClients` | pkg/controllers/api-aggregator/aggregatedapi/reconciler.go:54-117 | after any pass a registered cluster has the client and the selectors of the last of its spec entries usable in that pass, and if none was, those it had before the pass; resyncs change neither |
| `Aggregator.SecondPassReady` | pkg/controllers/api-aggregator/aggregatedapi/reconciler.go:54-117 | with stable discovery, working clients and compatible spec clusters whose resources have names and kinds, the second pass is Ready, from every reachable state and even if every rebuild of the first failed, and leaves the server in sync with the spec |
| `Aggregator.RunSound` | pkg/apiserver/server.go:154-302 | every state of every run of the server is one these results start from |
| `Operator.NoOrphans` | pkg/controllers/operator/aggregatedapi/reconciler.go:31-76 | in every state of every run, with lagging reads, conflicting writers, lost calls and crashes, an existing Deployment or Service implies that an AggregatedAPI of that child name exists with the finalizer, and that it is its own one if no other existing AggregatedAPI has that child name |
| `Operator.SharedNameBreaksOwnership` | pkg/controllers/operator/aggregatedapi/reconciler.go:80-82 | for every two keys with one child name there is a run in which the child exists and the first key does not |
| `Operator.SharedNameLosesChildren` | pkg/controllers/operator/aggregatedapi/reconciler.go:61-82 | for every two keys with one child name there is a run in which a pass over the first ends, nothing having failed, without its Deployment |
| `Operator.ChildNamesCollide` | pkg/controllers/operator/aggregatedapi/reconciler.go:80-82 | two keys have the same child name iff they are equal or a dash-separated part of one's name moved into the other's namespace |
| `Operator.ChildNamesNotInjective` | pkg/controllers/operator/aggregatedapi/reconciler.go:80-82 | a concrete collision |
| `Operator.FailureFreeFinalize` | pkg/controllers/operator/aggregatedapi/reconciler.go:61-76 | on a deleting object all four calls of a pass can go through; both children are gone while the finalizer is still there, then the finalizer goes, and the object with it unless it has other finalizers |
| `Operator.FailureFreeReconcile` | pkg/controllers/operator/aggregatedapi/reconciler.go:31-58 | on an object that is not deleting all calls of a pass can go through: the finalizer is there before any child is made, then both children are |
| `Operator.Cluster.Reconcile` | pkg/controllers/operator/aggregatedapi/reconciler.go:31-58 | a pass is a run of the step system and fails iff the object could not be read or a call failed; if it did not fail, and no other AggregatedAPI of that child name has existed in the run so far, an object read as not deleting has the finalizer and both children, one read as deleting with the finalizer has neither |
| `Operator.Cluster.Finalize` | pkg/controllers/operator/aggregatedapi/reconciler.go:61-76 | without failure the children and the finalizer are gone, if no other AggregatedAPI of that child name has existed in the run so far |

## Left out

- Selectors that select nothing by construction (`labels.Nothing`): a selector is nil or a conjunction of requirements.
- The text form of selectors and parsing it again at the member; a member evaluates the remote selector itself, and a field selector is an opaque predicate.
- The inner API server (`newGenericServer`, `install.go`, `scheme.go`, `protobuf.go`): building it is a step that may fail, after the storage map was made; whether it does is a parameter.
- TLS, listening, flags and the resync ticker: a resync may happen at any time.
- Validation callbacks are one flag that rejects the request; dry run, field managers, generated names, preconditions and resourceVersion conflicts of member writes are not modelled.
- Continue tokens and the resourceVersion of merged lists; the table form of objects; the order in which DeleteCollection reports.
- Other writers acting in the middle of one storage call; between calls they may do anything that keeps the members clean.
- Writes.WriteBack: takes cluster names to be non-empty, since an empty annotation means that no cluster is named.
- Watcher.ShutdownTerminates: counts steps; that goroutines which can run do run is the Go scheduler's part.
- Sync.GatedResyncAgreesIff: takes builds that both variants attempt to succeed or fail alike, since the build is outside the model.
- Sync.ResyncAgreesUpToSingular: takes the same of the builds after a change.
- Aggregator.Run: fetching the object and the Secret, making the clients, the status conditions, the status patch and the kubeconfig Secret; a cluster is reached or not.
- Operator.NoOrphans: reads lag but do not go back, nobody else removes the finalizer or creates workloads of these names, and a deleted child is gone at once.
- The contents of the child Deployment and Service, the aggregator's command line, generated code and manifests.
