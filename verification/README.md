# Control-plane models for the e2e test kit

The test kit in `testkit_v2/util` drives two Kubernetes clusters: a hypervisor cluster in
which it creates virtual machines, and a nested cluster that it deploys on them. This
project models that small control plane and proves what it guarantees while other actors
change the clusters, requests fail and time passes. Two smaller pieces of the repository
are modelled beside it: the counting loops of a benchmark and a unit converter.

| file | what it models |
|---|---|
| `Wrappers.dfy`, `FiniteSets.dfy` | Go's error result; counting finite sets |
| `Retry.dfy` | the polling combinator, a clock, and a world that other actors change between and during polls |
| `Conditions.dfy` | the condition language of filters, as a matcher and as a parser |
| `Filters.dfy` | the object filters and the fold of a filter list over a listing |
| `DeleteAndWait.dfy` | deleting what filters select and waiting until it is gone; waiting for attachments |
| `Namespaces.dfy` | the guard against deleting every namespace; the clean-up of old test namespaces |
| `VirtualMachines.dfy` | creating machines, waiting for them, filling in addresses in place; roles |
| `StaticInstances.dfy` | any number of concurrent upserts of one object under optimistic concurrency |
| `MergePatches.dfy` | JSON merge patches (section 2 of RFC 7396) |
| `StaticNodes.dfy` | credentials, static instances and node group of an order, from any store, cut off anywhere |
| `ClusterCache.dfy` | the mutex-protected cache of cluster handles under any number of callers |
| `VolumeGroups.dfy` | one volume group for every node |
| `BringupScript.dfy` | the script of the bring-up: its tasks, what a trace of events says, stages, time |
| `Bringup.dfy` | the whole bring-up of the nested cluster, built on the modules above |
| `Runner.dfy` | the flat and the tree runner over groups of nodes |
| `CountingLoops.dfy` | the counter-and-flags polling loops |
| `Units.dfy` | reading, scaling and printing sizes |

**World.** A wait polls a `Session`: a clock in nanoseconds, a current world, and the
history of every instant at which the code looked. `Session.Elapse` replaces the world by an
arbitrary one and moves the clock; it is the environment relation of every imperative
module. Objects can be declared permanent (nobody deletes them); only the volume-group module
does so. A fault field of a world, when set, is the error a request meets at that instant.
A request that fails has no effect.

**Runs.** `StaticInstances`, `ClusterCache` and `Runner` are transition systems. Their
theorems quantify over every run, that is, every interleaving of enabled steps.

**Strings** are byte sequences, one `char` a byte, because the condition language slices
bytes. Regular expressions are uninterpreted partial predicates on strings.

**The bring-up** keeps one trace. An event is a task, the span of clock and history in which
it ran, and whether the run could go on after it. The trace follows one script: the whole of
it on success, else up to the one task that failed. Every method states which piece of the
script it appends, so a step that is skipped, swapped with another or made under another
stage breaks its contract. What the run finds out on its way (whether Deckhouse and Docker are
missing, which namespaces are stale, which addresses were listed) is a parameter of the script.

**Where the code is not what it seems to be**, the code is modelled and the exact condition
is proved: the attachment filter's namespace field (`Filters.NamespaceFieldMisread`), the node
wait that counts masters (`BringupScript.ReadyWorkers`), the machine count that a foreign
machine misleads (`VirtualMachines.CountIsEnoughExactlyWhen`), truncated hashes
(`StaticNodes.PlaceReachesAll`), cache keys (`ClusterCache.ForeignHandle`) and conditions that a
`!` does not negate (`Conditions.Negation`).

Two texts in the source disagree with its code, which the model follows. A comment says that
installing Docker returns at once on errors other than a lock, but the error is handed to the
polling combinator like any other (`testkit_v2/util/kube_vm_cluster.go:153`), which goes on
whatever the error is (`Retry.EndsAtFirst`). The message of the role check asks for one setup
record, but a worker will do (`testkit_v2/util/kube_vm_cluster.go:367-371`).

## Model

| member | source | states |
|---|---|---|
| Retry.Session.RetrySec | testkit_v2/util/tools.go:38-63 | nil exactly when the last poll succeeded; every earlier poll failed before the deadline; each verdict is the polled function's reading of the world at instants within that poll; polls are spaced by the latency; progress lines are rate limited |
| Retry.Session.Note | testkit_v2/util/tools.go:54-58 | log lines are more than ten seconds apart, and one wait repeats a message only after two minutes |
| Retry.WaitingIsBounded | testkit_v2/util/tools.go:39-60 | before its deadline a wait makes at most sec / latency + 1 failing polls, so it terminates |
| Retry.LatencyIs | testkit_v2/util/tools.go:39-42 | the latency is a seventh of the time and fifteen seconds, truncated as Go divides, and fifteen at most, for negative times too |
| Retry.FinishedPollCount | testkit_v2/util/tools.go:39-60 | a finished wait made at most one poll more than that; with a negative time exactly one |
| Retry.FinishedTiming | testkit_v2/util/tools.go:38-60 | it fails only from sec + 1 seconds on, and every wait ends before sec + 1 + latency seconds plus one poll and one oversleep |
| Retry.Detects | testkit_v2/util/tools.go:44-53 | a condition that becomes and stays true with one poll's length left before sec + 1 is never reported as a failure |
| Retry.StopsOnce | testkit_v2/util/tools.go:45-53 | a finished wait polls no more |
| Retry.EndsAtFirst | testkit_v2/util/tools.go:45-53 | a wait ends with its first poll if and only if that poll succeeded or ran past the deadline, whatever its error |
| Conditions.CheckMeansPattern | testkit_v2/util/filter.go:33-56 | a string condition accepts exactly what its parsed pattern (equal, not equal, contains, does not contain) accepts |
| Conditions.PrintAfterParse | testkit_v2/util/filter.go:33-56 | printing a parsed condition gives back its bytes, for every byte string |
| Conditions.ParseAfterPrint | testkit_v2/util/filter.go:33-56 | parsing a printed pattern gives it back if and only if its payload is printable |
| Conditions.SameMeaningSameText | testkit_v2/util/filter.go:37-56 | two string conditions accept the same strings if and only if they are the same string |
| Conditions.NeverTrivial | testkit_v2/util/filter.go:37-56 | every string condition accepts some string and rejects some string |
| Conditions.Negation | testkit_v2/util/filter.go:37-56 | a leading "!" complements a condition if and only if it is neither empty nor already negated |
| Conditions.WhereComplement | testkit_v2/util/filter.go:77-143 | each Where type and its Not twin are complementary, expressions that do not compile included |
| Conditions.ContainsMeans | testkit_v2/util/filter.go:99-108 | containment is being a middle part of the string |
| Conditions.WhereNone | testkit_v2/util/filter.go:77-143 | an empty list accepts nothing, its Not twin everything |
| Conditions.WhereOne | testkit_v2/util/filter.go:77-143 | a list of one text or expression accepts exactly the equal, containing or matching strings |
| Conditions.WhereInBoth | testkit_v2/util/filter.go:77-97 | a longer WhereIn list accepts what either part accepts, a longer WhereNotIn list what both accept |
| Conditions.WhereLikeBoth | testkit_v2/util/filter.go:99-119 | the same for WhereLike and WhereNotLike |
| Conditions.WhereRegBoth | testkit_v2/util/filter.go:121-143 | the same for WhereReg and WhereNotReg |
| Conditions.TypesMustAgree | testkit_v2/util/filter.go:37-75 | a flag is accepted exactly by no condition or the equal flag; values and conditions of different types never agree |
| Conditions.CheckSays | testkit_v2/util/filter.go:37-75 | of a text, every condition says what its pattern or its list of texts says |
| Filters.Apply | testkit_v2/util/kube.go:189-198 | one pass keeps, in order, exactly the accepted items |
| Filters.List | testkit_v2/util/kube.go:213-216 | listing folds the filters over the items |
| Filters.FoldIsConjunction | testkit_v2/util/kube_node.go:55-95 | the fold is one order-preserving pass that keeps what every filter accepts |
| Filters.OrderAndRepetition | testkit_v2/util/kube_storage.go:127-175 | neither the order of the filters nor repeating one changes the result |
| Filters.NegationSplits | testkit_v2/util/filter.go:37-56 | filtering by a condition and by its "!" form splits any list into two order-preserving sublists holding every item exactly once |
| Filters.WhereSplits | testkit_v2/util/filter.go:77-143 | so does filtering by a Where value and by its Not twin |
| Filters.NamespaceFieldMisread | testkit_v2/util/kube_vm.go:438-458 | an attachment filter of string conditions selects what its fields say if and only if its namespace condition is unset or repeats the name condition |
| Filters.NsFilterSays | testkit_v2/util/kube.go:189-198 | a namespace is accepted when its name condition says so |
| Filters.NodeFilterSays | testkit_v2/util/kube_node.go:55-72 | a node is accepted when each condition says so of its own field |
| Filters.PodFilterSays | testkit_v2/util/kube_node.go:444-455 | so for pods and their node names |
| Filters.VmFilterSays | testkit_v2/util/kube_vm.go:38-52 | so for machines, their namespaces and phases |
| Filters.VdFilterSays | testkit_v2/util/kube_vm.go:273-287 | so for disks |
| Filters.VmbdFilterSays | testkit_v2/util/kube_vm.go:438-458 | so for attachments, but with any namespace condition it is the name condition that is asked about the namespace |
| Filters.BdFilterSays | testkit_v2/util/kube_storage.go:47-69 | so for block devices; a size other than 0 counts in whole GiB, the fraction dropped, give or take 10 MiB |
| Filters.LvgFilterSays | testkit_v2/util/kube_storage.go:127-142 | so for volume groups; a node condition asks for a first node |
| DeleteAndWait.DeleteEach | testkit_v2/util/kube_storage.go:92-96 | one request each, in order, up to the first one that meets a fault of the server or is refused; success if and only if all were made |
| DeleteAndWait.DeleteListed | testkit_v2/util/kube_storage.go:87-99 | Delete is requested only for listed objects accepted by all filters, in order: all of them on success, which is certain when no request fails and the namespace guard is open; none when the guard is shut; a failed listing deletes nothing |
| DeleteAndWait.WaitGone | testkit_v2/util/kube_storage.go:105-116 | nil means that some poll saw no accepted object; if from some instant on, a poll before the deadline, none is listed, the result is nil |
| DeleteAndWait.DeleteAndWait | testkit_v2/util/kube_vm.go:356-388 | on nil everything selected was deleted and a later poll saw nothing selected; when no request of the deleting half fails and the guard is open the wait begins, and when the others then remove all that was marked and add nothing selected, a poll before the deadline, the result is nil |
| DeleteAndWait.PollIsClear | testkit_v2/util/kube_vm.go:377-386 | a poll succeeds if and only if no listed object is accepted by every filter |
| DeleteAndWait.GrownIsOnce | testkit_v2/util/kube_vm.go:476-489 | the k-th poll, with k + 1 copies of the "!Attached" filter, decides as with one copy, for all k |
| DeleteAndWait.ClearIsAttached | testkit_v2/util/kube_vm.go:476-489 | such a poll succeeds if and only if every selected attachment is attached |
| DeleteAndWait.WaitVmbdAttached | testkit_v2/util/kube_vm.go:476-489 | nil means that at some instant all selected attachments were attached; if they are in time and stay so, the result is nil |
| Namespaces.Cluster.DeleteNs | testkit_v2/util/kube.go:237-256 | what a call leaves, complete or cut short; success only if it selected fewer namespaces than there are |
| Namespaces.SomeoneStays | testkit_v2/util/kube.go:237-256 | a call that deletes anything leaves a namespace it did not select |
| Namespaces.NeverEmptied | testkit_v2/util/kube.go:237-256 | no sequence of calls, each complete or cut short, empties a nonempty cluster |
| Namespaces.PlainName | testkit_v2/util/filter.go:37-56 | as a condition, a host label (section 2.1 of RFC 1123) selects exactly the object of that name |
| Namespaces.ListedTmp | testkit_v2/util/kube_vm_cluster.go:301 | the listing condition finds every name with the temporary prefix |
| Namespaces.StaleMeans | testkit_v2/util/kube_vm_cluster.go:303-306 | stale are the namespaces named "e2e-tmp-" and anything, not the run's own, more than 1800 seconds old |
| Namespaces.Cluster.CleanUpNs | testkit_v2/util/kube_vm_cluster.go:299-313 | with host-label names, a normal return whose listing worked leaves exactly the namespaces that are not stale; no other namespace is ever deleted |
| VirtualMachines.AssignIps | testkit_v2/util/kube_vm_cluster.go:83-90 | the nested loop gives, in place, each listed machine's address to the first entry of its name |
| VirtualMachines.AssignedIp | testkit_v2/util/kube_vm_cluster.go:83-90 | with distinct names an entry gets the address of the machine of its name, other entries and other fields stay |
| VirtualMachines.CreateMissing | testkit_v2/util/kube_vm_cluster.go:51-67 | every machine is requested, in order, when the listing failed or is too short, none otherwise |
| VirtualMachines.VmSync | testkit_v2/util/kube_vm_cluster.go:62-91 | on return the addresses are those of a listing of this call's wait with at least as many running machines as entries; the wait's span ends with the call, within its budget, and there is none if creating failed; on a fatal exit no entry has changed |
| VirtualMachines.AwaitRunning | testkit_v2/util/kube_vm_cluster.go:69-81 | the wait takes the time of the call: less than its budget, and at least 481 seconds if it fails; a failed one saw too few machines run when no full poll fitted in any more |
| VirtualMachines.EnoughRun | testkit_v2/util/kube_vm_cluster.go:69-78 | a poll succeeds if and only if no fault is met and that many machines of the namespace are in phase Running |
| VirtualMachines.EnoughInTime | testkit_v2/util/kube_vm_cluster.go:69-81 | when enough machines run from some instant on, a poll before the deadline, the wait does not fail |
| VirtualMachines.RunningMeans | testkit_v2/util/kube_vm_cluster.go:70 | the listing of the wait is the running machines of the namespace, in order |
| VirtualMachines.SyncedAddresses | testkit_v2/util/kube_vm_cluster.go:69-90 | when only requested machines live in the namespace, the count test gives every entry the address of the running machine of its name |
| VirtualMachines.ForeignVmMisleads | testkit_v2/util/kube_vm_cluster.go:69-90 | one foreign machine in place of an entry's own passes the count test and leaves that entry's address as it was |
| VirtualMachines.CountIsEnoughExactlyWhen | testkit_v2/util/kube_vm_cluster.go:69-90 | with distinct requested names, the count test gives every entry the address of the running machine of its name in every listing if and only if no name but the requested ones may live in the namespace |
| VirtualMachines.IdentifyVmRoles | testkit_v2/util/kube_vm_cluster.go:351-375 | succeeds if and only if there is one master and a setup or worker entry; the workers are the in-order non-master workers, the bootstrap the last setup entry, else the first worker |
| VirtualMachines.BootstrapIsNoMaster | testkit_v2/util/kube_vm_cluster.go:355-369 | neither the bootstrap nor a worker is a master |
| StaticInstances.UpdateDue | testkit_v2/util/kube_node.go:299-323 | an update is due if and only if address, credentials or role differ from the request |
| StaticInstances.CompletionIsEnsure | testkit_v2/util/kube_node.go:325-367 | the step at which a call returns nil does to the store what the whole call does alone |
| StaticInstances.NilReturn | testkit_v2/util/kube_node.go:325-367 | in any interleaving, a call that returned nil had the stored instance equal to its request at a step of its own interval |
| StaticInstances.NoLostUpdate | testkit_v2/util/kube_node.go:337-364 | between a call's read and its successful update nobody else wrote: an update overwrites nothing its caller has not seen |
| StaticInstances.Linearizable | testkit_v2/util/kube_node.go:325-367 | the store is that of the calls run one at a time in the order of their nil returns, foreign writes between them; failed calls leave no trace |
| StaticInstances.LastWriterWins | testkit_v2/util/kube_node.go:325-367 | with no foreign write after it, the final instance is the last successful caller's |
| MergePatches.PatchApplies | testkit_v2/util/kube_node.go:238-249 | a null-free patch is contained in the patched document |
| MergePatches.PatchIsNoop | testkit_v2/util/kube_node.go:238-249 | a null-free patch changes nothing if and only if the document contains it |
| MergePatches.PatchTwice | testkit_v2/util/kube_node.go:238-249 | patching twice is patching once |
| MergePatches.PatchFrame | testkit_v2/util/kube_node.go:238-249 | members the patch does not name stay |
| MergePatches.PathFrame | testkit_v2/util/kube_node.go:238-249 | whatever a path leads to that the patch does not name, at any depth, is as before |
| MergePatches.PathSet | testkit_v2/util/kube_node.go:238-249 | where the patch holds null there is nothing afterwards, where it holds another value that value, where an object an object |
| StaticNodes.Server.CreateOrUpdSSHCredential | testkit_v2/util/kube_secret.go:47-84 | on success the credential has exactly the requested spec; on failure it is untouched, or newly created with that spec |
| StaticNodes.Server.EnsureStaticInstance | testkit_v2/util/kube_node.go:325-367 | creates, updates or leaves alone as needed; a failing call changes nothing |
| StaticNodes.Server.CreateStaticInstances | testkit_v2/util/kube_node.go:397-407 | a failure leaves the work done on a prefix of the addresses |
| StaticNodes.Server.CreateNodeGroup | testkit_v2/util/kube_node.go:226-253 | creates the group or merges the content into it |
| StaticNodes.PlaceReachesAll | testkit_v2/util/kube_node.go:397-407 | from any instances, every address ends with its instance as requested if and only if no two different addresses share a truncated hash |
| StaticNodes.PlaceAgain | testkit_v2/util/kube_node.go:353-366 | ensuring instances that are as requested writes nothing |
| StaticNodes.OneInstanceEach | testkit_v2/util/kube_node.go:397-407 | distinct addresses without hash collisions get one instance each |
| StaticNodes.GroupHolds | testkit_v2/util/kube_node.go:255-276 | a group that contains the requested content has its kind, name, type, count and selector along their paths |
| StaticNodes.OrderNames | testkit_v2/util/kube_node.go:255-276 | the order names nothing of the document, of metadata, of spec or of the static instances but its own members |
| StaticNodes.Server.ProvisionedIsFurnished | testkit_v2/util/kube_node.go:380-433 | provisioned means, in fields: each address has its "si-" instance with that address, a credential that exists and holds exactly user and key, and the node-role label by which the "vm-...-worker" group selects |
| StaticNodes.Server.AddStaticNodes | testkit_v2/util/kube_node.go:380-433 | from any store, one a cut-off run left included, success reaches the requested credential, instances and group if and only if the hashes do not collide; it fails only with the key file's error or that of its last request; a further run changes none of them; what the order does not name of an existing group, and other objects, never change |
| ClusterCache.KeyOfOnePair | testkit_v2/util/kube_cluster.go:41 | without a ":" in the paths a key belongs to one pair |
| ClusterCache.KeyIsShared | testkit_v2/util/kube_cluster.go:41 | another pair has the same key if and only if the path or the name has a ":" |
| ClusterCache.ForeignHandle | testkit_v2/util/kube_cluster.go:27-52 | some run hands a call a handle built for other arguments if and only if the call's path or name has a ":" |
| ClusterCache.Cache.EnsureCluster | testkit_v2/util/kube_cluster.go:27-52 | a returning call hands out the handle cached under its key, building it for its own arguments if there was none; set-up has happened exactly once |
| ClusterCache.InvHolds | testkit_v2/util/kube_cluster.go:27-52 | the lock's, the set-up's and the cache's invariant holds in every state of every run |
| ClusterCache.MutualExclusion | testkit_v2/util/kube_cluster.go:28-29 | two callers are never inside at once |
| ClusterCache.SetUpOnce | testkit_v2/util/kube_cluster.go:31-39 | environment set-up and cluster creation run at most once and are done before any handle is returned |
| ClusterCache.SameKeySameHandle | testkit_v2/util/kube_cluster.go:41-51 | equal keys always yield the same handle |
| ClusterCache.OwnHandle | testkit_v2/util/kube_cluster.go:41-51 | with ":"-free paths a caller gets the handle built for its own arguments |
| ClusterCache.RunsAsSection | testkit_v2/util/kube_cluster.go:27-52 | from lock to unlock a call does to the map what it would do alone |
| VolumeGroups.WaitMeans | testkit_v2/util/kube_storage.go:177-190 | a poll succeeds if and only if no listed group of the name is in a phase other than Ready |
| VolumeGroups.MissingMeans | testkit_v2/util/kube_storage.go:509-528 | the groups to create are those of the listed nodes without a Ready group |
| VolumeGroups.WaitLVGsReady | testkit_v2/util/kube_storage.go:177-204 | nil means a poll without an unready group of the name; a failure means that the group was unready when no full poll fitted in any more, or that the last listing failed or showed it without nodes |
| VolumeGroups.CreateLvgWithCheck | testkit_v2/util/kube_storage.go:206-237 | nil means that the group was new, exists, and was listed as Ready by some poll after its creation; a failure that the server, a taken name or the wait refused it |
| VolumeGroups.EnsureEveryNodeHasLVMVolumeGroup | testkit_v2/util/kube_storage.go:499-536 | on success every listed node has its group; exactly those missing from the initial Ready listing were created, each once, and each was seen Ready; on failure the created ones are those of a prefix of the listed nodes, and a listing failed or a missing group's creation met trouble |
| Bringup.Run.ClusterCreate | testkit_v2/util/kube_vm_cluster.go:437-491 | the trace follows the script, whole on success, else up to the one failed task; stages are entered in their order, each once; every event is true of its own span, spans follow one another in time; on success the entries carry the addresses of a listing of the wait, Deckhouse was installed on the bootstrap's and the master's, the run's one order asks for exactly the workers' addresses and is provisioned, and the four workloads, by name, were seen up; the clock shows less than 2538 s plus eight polls and oversleeps inside waits |
| Bringup.Run.FollowScript | testkit_v2/util/kube_vm_cluster.go:437-491 | the run's events are the script's tasks in order, the first failing one last |
| Bringup.Run.InitVmD8 | testkit_v2/util/kube_vm_cluster.go:271-297 | Deckhouse is deployed only when missing and only with a license: templates, upload, Docker with its wait, registry login, configuration, resources, then the kubeconfig, in that order |
| Bringup.Run.EnsureDockerInstalled | testkit_v2/util/kube_vm_cluster.go:135-172 | Docker is looked for first; only when absent its installation is waited for, and only after a wait that succeeded it is verified |
| Bringup.Run.Prepare | testkit_v2/util/kube_vm_cluster.go:328-349 | in the "reinit" mode the old namespace is deleted, then waited for until gone, then keys and the new namespace are made; in the "free tmp" mode stale namespaces are deleted first |
| Bringup.Run.CleanUpNs | testkit_v2/util/kube_vm_cluster.go:299-313 | in a changing cluster: exactly the stale names of one listing are asked to be deleted, in its order, up to a failure |
| Bringup.Run.DeleteSelected | testkit_v2/util/kube.go:237-256 | only namespaces of the first listing are deleted, and only if the second listing counted another number of them |
| Bringup.Run.JoinNodes | testkit_v2/util/kube_vm_cluster.go:479-486 | static nodes are added, then the node wait is made |
| Bringup.Run.EnsureClusterReady | testkit_v2/util/kube_vm_cluster.go:406-435 | the four stages follow one another, each entered and then waited for |
| Bringup.Run.Await | testkit_v2/util/kube.go:295-315 | appends one event whose span is the time and history of the call; success means the goal was met by readings inside it, failure that it was unmet by readings made when no full poll fitted in any more |
| BringupScript.StagesInOrder | testkit_v2/util/kube_vm_cluster.go:437-491 | a trace that follows the script enters the thirteen stages in their order, all of them when complete |
| BringupScript.ProbeMeans | testkit_v2/util/kube.go:277-352 | a poll succeeds if and only if, in plain terms of the worlds read: no namespace the condition accepts, Docker installed, that many nodes Ready, a deployment's ready replicas all its replicas, a daemon set's counts equal and as many own pods, all running |
| BringupScript.NamespaceIsGone | testkit_v2/util/kube.go:263-274 | for a host label the goal is that no namespace has that name |
| BringupScript.SettledWaitSucceeds | testkit_v2/util/tools.go:38-63 | a wait whose goal is met by all readings from some instant on, a poll before the deadline, has succeeded |
| BringupScript.EveryWaitMet | testkit_v2/util/kube_vm_cluster.go:437-491 | in a complete run every wait of the script found its goal met inside its own span |
| BringupScript.ModulesSeen | testkit_v2/util/kube_vm_cluster.go:406-435 | a complete run saw the snapshot controller and the CSI controller deployments and both daemon sets up |
| BringupScript.JoinedWorkers | testkit_v2/util/kube_vm_cluster.go:468-486 | a complete run makes one order, for the addresses of the entries that are workers and no masters, in their order, and then waits for as many nodes |
| BringupScript.WorksOnRightMachines | testkit_v2/util/kube_vm_cluster.go:457-477 | configuration and resources are bootstrapped from a setup or worker entry's address for a master entry's address, and Docker is removed from the former |
| BringupScript.WaitedWithin | testkit_v2/util/tools.go:38-63 | the time the clock shows inside the waits of a trace is within the budgets of its tasks |
| BringupScript.BoundedWaiting | testkit_v2/util/kube_vm_cluster.go:437-491 | however a run ends, the time from start to end of its waits sums to less than 2538 seconds plus eight polls and eight oversleeps |
| BringupScript.StaleListed | testkit_v2/util/kube_vm_cluster.go:301-306 | the listing condition of the clean-up misses no stale namespace |
| BringupScript.PodsOfMeans | testkit_v2/util/kube.go:333-334 | the pods a daemon set check counts are those with "name-" in their names |
| BringupScript.MastersCountAsReady | testkit_v2/util/kube_vm_cluster.go:386-399 | the node count passes if and only if the ready workers make up the number asked for less the ready masters |
| BringupScript.ReadyWorkers | testkit_v2/util/kube_vm_cluster.go:386-399 | the node wait is a wait for that many ready workers if and only if no master is ready |
| Bringup.WorkerAddresses | testkit_v2/util/kube_vm_cluster.go:468-471 | when only requested machines live in the namespace, the addresses handed to the nested cluster are those of running machines asked for as workers |
| Runner.MapLabelNodes | testkit_v2/util/kube_node.go:196-212 | one group for each matching label, empty map when the nodes cannot be listed |
| Runner.GroupMeans | testkit_v2/util/kube_node.go:196-212 | a node is in a label's group if and only if it is listed and passes the caller's filters and the label's |
| Runner.RunTestGroupNodes | testkit_v2/util/kube_tester.go:53-73 | the flat runner is cut off, at that call, if and only if some callback of the groups aborts; otherwise it calls back exactly once for each label and position, with the node of that position, and fails if and only if a callback does or a group is empty and optional skipping is off; cut off, it fails only if that holds |
| Runner.TreeIsFlat | testkit_v2/util/kube_tester.go:75-100 | in any interleaving of subtests, and whatever callbacks abort, a finished tree run made the calls of a flat run that none aborts, each once, and has its verdict |
| Runner.TreeEnds | testkit_v2/util/kube_tester.go:75-100 | no tree run goes on for ever |
| CountingLoops.MarkListing | images/sds-lvm-e2e/src/tests/case_600_test.go:73-81 | one listing raises exactly the flags of names in the target phase, lowers none, and keeps the counter equal to the number of raised flags |
| CountingLoops.FullMeansAll | images/sds-lvm-e2e/src/tests/case_600_test.go:65 | the counter never exceeds the map's size and reaches it if and only if every flag is raised |
| CountingLoops.CountLoop | images/sds-lvm-e2e/src/tests/case_600_test.go:64-82 | over any listings and list errors, flags are exactly the names seen in the target phase, and the loop ends with the first listing after which all have been seen |
| Units.ScaleIsRatio | testkit/funcs/helper.go:50-72 | the nine branches agree with one table of sizes and refuse every other unit |
| Units.TiesToEven | testkit/funcs/helper.go:138 | halfway between two hundredths the even one is printed |
| Units.ReadsNumber | testkit/funcs/helper.go:74-86 | blanks, digits with at most one dot, letters, blanks: the value is that of the digits, the unit the letters in upper case |
| Units.ReadableNumbers | testkit/funcs/helper.go:75-83 | a number with a unit is read if and only if it has a digit and at most one dot |
| Units.UpperIs | testkit/funcs/helper.go:84 | the three units are read in any case |
| Units.ReadExamples | testkit/funcs/helper.go:74-86 | "10Gi" is ten, " 1.5mi" one and a half, ".25Ki" a quarter |
| Units.SplitsOnce | testkit/funcs/helper.go:75-79 | an input splits into number and unit in at most one way |
| Units.Converts | testkit/funcs/helper.go:88-139 | it converts exactly the readable values of a known unit in any case to a known unit in upper case |
| Units.PrintedParses | testkit/funcs/helper.go:74-86 | what is printed is read back, to the hundredth and with its unit |
| Units.ThereAndBack | testkit/funcs/helper.go:88-139 | converting to another unit and back moves any value by at most half a hundredth of each unit |
| Units.TwoDecimalsReturn | testkit/funcs/helper.go:88-139 | a two-decimal value converted to a smaller unit and back gives the same text |

## Left out

- SSH, SFTP, tunnels, key generation, password prompts: a remote command is an action that takes any time and may fail. The background tunnels, which may end the process at any instant, are not modelled.
- Kubernetes clients, schemes and the API server beyond listings, versions and merge patches: foreign code.
- Requests that are applied although their response is lost: a failing request has no effect here.
- DeleteAndWait.DeleteListed: a refused Delete ends the call, but the model does not tie an accepted Delete to the object's later disappearance; other actors remove objects.
- Bringup.Run.DeleteNs: the hypervisor's namespaces change by themselves, so it states the request and the guard; the effect of deletions is in `Namespaces`, where the removal is immediate and nobody else writes.
- Bringup.Run.Act: a remote command's outcome is arbitrary, so the answers of the Docker and Deckhouse checks are tied to nothing.
- Namespaces.Cluster.DeleteNs: both of its listings see one store; with others creating or deleting namespaces in between, the guard compares counts of different moments and promises no more than `Bringup.Run.DeleteSelected` states.
- Namespaces.Cluster.CleanUpNs: nobody else creates or removes namespaces meanwhile; `Bringup.Run.CleanUpNs` states what holds when they do.
- Runner.RunTestGroupNodes: subtest names, selection by `-run` and the logged counts.
- CountingLoops.CountLoop: the loop has no deadline, so the model cuts it off when the given listings are used up.
- Units.ThereAndBack: exact arithmetic instead of 64-bit floating point, so the error for numbers beyond its range is missing too.
- Retry.Session.RetrySec: `sec + 15` and the conversion of durations do not overflow; data races on the shared log time are not modelled, the log level and colours neither.
- The contents of `CreateVM` (disks, cloud-init, image): creating a machine is one request. It leaves the disk's name empty when the disk already exists (`testkit_v2/util/kube_vm.go:113-120`).
- `EnsureModuleEnabled` and module configurations: always reads one fixed module's version.
- `WaitPVCStatus` and the storage-class, PVC and pod builders: object literals and a loop of twenty tries.
- The size arguments and 32-bit size checks of volume groups, LVM command wrappers and the parsing of node output: external tools.
- Flag parsing and the tables of clusters and images: finite data.
- The older sequence in `testkit/clusterManagement` and the scripted scenarios: linear scripts over the same operations.
