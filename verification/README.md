# NimbusCore: a verified model of the control plane

NimbusCore is a small container orchestrator. This project models the parts of it whose correctness depends on several
functions or on whole histories, and proves what they guarantee.

* **Deployment controller.** `Reconcile.dfy` states one pass of the reconciler on values: evict, size, evict again, place,
  claim volumes, report status. `DeploymentController.dfy` is the imperative controller, a class over the stored objects,
  proved to perform such a pass. Go's map order is modelled by `Sums.ListKeys`, which returns the keys in an arbitrary order.
  `PassOutcome.dfy` says what a pass leaves behind, field by field of the stored objects.
  `Convergence.dfy`, `Fixpoint.dfy`, `Framing.dfy`, `VolumeSafety.dfy`, `Round.dfy` and `Settling.dfy` hold the theorems about
  passes, rounds and histories.
* **Scheduling and capacity.** `Scheduler.dfy`, `Usage.dfy`, `Placement.dfy`, `Capacity.dfy` and `Autoscaler.dfy` relate the
  scheduler's choice, the usage recomputed from the pods, and the cluster-wide arithmetic of the autoscaler.
* **Encrypted store.** `Store.dfy`, `Rotation.dfy` and `Registry.dfy`: the plain in-memory store is the specification, the
  replicated encrypted store refines it across key rotations, and the typed registries are independent tables on top of it.
  AES-GCM is an ideal authenticated cipher: a value opens under the key that sealed it and under no other.
* **Self-contained machines.** `CircuitBreaker.dfy`, `NodePorts.dfy`, `MissingStreaks.dfy`, `Quota.dfy` and the dashboard's
  command field in `CommandLine.dfy` and `CommandReader.dfy`.

`Sums.dfy`, `Names.dfy` and `Cluster.dfy` hold sums over finite maps, ordinal pod names and the object types.

Clocks, nonces, leadership, container listings and the success of opening a port are parameters or arbitrary choices. An
object's namespace and name are the key it is stored under. Node names are non-empty, as the API requires when a node is
created.

## What turned out not to hold

Each has a lemma that states the failure or the exact condition under which the code is right.

* A pass does not always reach the wanted count. It falls short if and only if it has to create pods and the node they are
  pinned to (by a claimed volume or by the template) is not ready (`Convergence.Converges`,
  `Convergence.PinnedToMissingNode`).
* Creating a pod overwrites a stranger's pod that sits on one of the ordinals the pass has to fill, and only then touches it;
  which ordinals those are is read off the state before the pass (`Framing.ForeignPodFate`, `Framing.StrangerOverwritten`).
* A deployment without a namespace owns the pods of every deployment of its name. Two different deployments leave each
  other's pods alone if and only if that is not their case (`Framing.UntouchedExactly`, `Framing.EmptyNamespaceTakesAll`).
* A pass can overcommit a node or reuse a port. The pods it places are all placed against the same stale candidates, and the
  pods it creates on a fixed node (that of a claimed volume, or one named by the template) never meet the scheduler.
  `Placement.PassSoundExactly` gives the exact condition for every pass, `Placement.PassIsSound` a simpler one for
  non-negative requests from a sound cluster; `Placement.TwoPodsOvercommit` and
  `Placement.PinnedOvercommits` are failing inputs.
* A key rotation keeps every value readable if and only if every value is sealed under the key that was current before it
  or already under the new one (`Rotation.RotationReadable`). A second rotation after an interrupted re-encryption loses what
  the first had not reached (`Rotation.SecondRotationLoses`, `Rotation.InterruptedThenRotated`). The first rotation of a
  store running without encryption loses everything (`Rotation.RotationWithoutEncryption`).
* Re-encrypting a listed value undoes a client's write to it since the listing (`Rotation.StaleRewrite`), and
  `Rotation.StepExact` says exactly which steps are harmful.
* Two objects of a kind share a key in the registry if and only if the namespace path of one continues in the name of the
  other (`Registry.EncodeCollides`). With namespaces free of slashes, only a cluster-scoped name with a slash can do that
  (`Registry.EncodeCollidesOnlyByShadow`, `Registry.SlashesCollide`).
* The comment on the missing-task confirmations speaks of consecutive ticks of a task. The code counts per pod and keeps the
  count across a stop and a start, so a new container can be declared exited after one missing tick
  (`MissingStreaks.FreshContainerExpires`). `MissingStreaks.StreakCounts` says what is counted.
* A negative request defeats the namespace quota (`Quota.NegativeRequestBreaksQuota`). `Quota.QuotaWithstands` says exactly
  which pods the quota stands up to.
* The command field does not read back every list it prints (`CommandLine.RoundTrip` gives the exact condition).

## Model

| member | source | states |
|---|---|---|
| DeploymentController.Controller.OwnedPods | internal/controller/deployment.go:172-211 | the store loses exactly the owned pods that are finished or on a node that is not ready, and the survivors are listed once each |
| DeploymentController.Controller.ResolveVolumeNode | internal/controller/deployment.go:302-316 | returns the node of the first claimed mounted volume, or none |
| DeploymentController.Controller.OccupiedOrdinals | internal/controller/deployment.go:107-113 | collects the ordinals readable from the owned pods' names |
| DeploymentController.Controller.FillOrdinals | internal/controller/deployment.go:114-128 | terminates whatever ordinals are occupied, and creates the given number of pods at exactly the smallest free ordinals |
| DeploymentController.Controller.DeleteSurplus | internal/controller/deployment.go:129-137 | deletes as many owned pods as exceed the wanted count and nothing else |
| DeploymentController.Controller.SchedulePod | internal/controller/scheduling.go:60-103 | assigns the chosen node and clears the message, or records why the pod waits; writes no other pod |
| DeploymentController.Controller.ScheduleUnassigned | internal/controller/deployment.go:269-296 | every unassigned owned pod is placed against one set of candidates computed before the first placement |
| DeploymentController.Controller.ClaimVolumeNodes | internal/controller/deployment.go:322-365 | existing unclaimed mounted volumes are claimed for the node of an assigned owned pod; claimed ones keep their node |
| DeploymentController.Controller.ReconcileOne | internal/controller/deployment.go:75-170 | a non-negative replica count makes it one pass in the sense of the specification; a negative count, and only that, indexes the owned list out of range after the eviction sweep |
| DeploymentController.Controller.ReconcileAll | internal/controller/deployment.go:62-73 | a round is a sequence of passes over distinct stored deployments; it covers all of them unless one has a negative count, and then, and only then, it ends at such a deployment after its eviction sweep |
| PassOutcome.OwnedMeans | internal/controller/deployment.go:172-182 | the owned pods are those with the owner label naming the deployment, in its namespace or, without one, everywhere |
| PassOutcome.SweepMeans | internal/controller/deployment.go:182-210 | an owned pod survives the sweep exactly when it is on no node or on a ready one and has neither succeeded nor failed; nothing else is lost or changed |
| PassOutcome.OwnedAfterPass | internal/controller/deployment.go:75-170 | after a pass no owned pod has succeeded or failed or is on a node that is missing or not ready |
| PassOutcome.ReachedCount | internal/controller/deployment.go:81-140 | without mounts a pass reaches the replica count, with mounts one, if and only if enough pods survived or new ones are not pinned to a lost node; a count of zero leaves none |
| PassOutcome.FreeReplicasConverge | internal/controller/deployment.go:81-140 | replicas that no volume and no template pins are always brought to the number asked for |
| PassOutcome.NewNodeMeans | internal/controller/deployment.go:92-122 | new pods stay unless the node of the claimed volume, or else the one the template names, is missing or not ready |
| PassOutcome.CreatedMeans | internal/controller/deployment.go:367-386 | a created pod has the selector labels and the owner label and no others, the template spec except for the node, and is pending |
| PassOutcome.SurvivorMeans | internal/controller/deployment.go:75-170 | a surviving pod that was not surplus is as it was, except that one without a node may have been given one |
| PassOutcome.PlacementMeans | internal/controller/scheduling.go:60-103 | a waiting pod gets the ready, uncordoned node with the most free CPU plus memory among those that can take it, and loses its message; when no node can take it, it stays without one and its message says what it waits for |
| PassOutcome.ClaimsMean | internal/controller/deployment.go:322-365 | without mounts or an assigned pod no volume changes; otherwise the node of one assigned pod is written, with the owner label, to exactly the mounted volumes that had none |
| PassOutcome.StatusMeans | internal/controller/deployment.go:154-169 | the stored deployment reports the number of owned pods and of those running; no other deployment and no node changes |
| Convergence.OrdinalsBelow | internal/controller/deployment.go:107-128 | pigeonhole: the n smallest free ordinals next to m occupied ones are all below n + m |
| Convergence.FillIsFresh | internal/controller/deployment.go:107-128 | a fill uses ordinals below the wanted count, never the key of a pod already owned, and brings the owned set to the wanted size |
| Convergence.Converges | internal/controller/deployment.go:75-170 | from any pod state, one pass owns exactly the wanted number of pods if and only if enough survived or new pods are not pinned to a node that is not ready; every owned pod is then non-terminal and on a ready node or unassigned |
| Convergence.PinnedToMissingNode | internal/controller/deployment.go:115-140 | a deployment without pods whose template names a node that does not exist still owns nothing after a pass |
| Convergence.CreatedFromTemplate | internal/controller/deployment.go:367-386 | an owned pod that did not survive from before has an ordinal name below the wanted count, the template's containers and mounts, the selector and owner labels, phase pending, and the pinned node if there is one |
| Fixpoint.ScheduledTwice | internal/controller/deployment.go:269-296 | a pod that found no node finds none in the next round either, so with non-negative requests scheduling the outcome again changes nothing |
| Fixpoint.Idempotent | internal/controller/deployment.go:75-170 | with nodes unchanged and non-negative requests a second pass leaves the whole store as it found it, for all listing orders, and creates and deletes nothing if the first met the wanted count |
| Round.RoundConverges | internal/controller/deployment.go:62-73 | for a deployment unrelated to the others in a round, wherever it comes in the order: after the whole round it has its wanted count if and only if the state in which the round began allows it, and its pods are live |
| Settling.PassCalms | internal/controller/deployment.go:75-170 | after a pass the deployment has its wanted count, or new pods would be evicted at once and the names to fill are empty |
| Settling.DoneIsStill | internal/controller/deployment.go:75-170 | once a deployment is calm, its waiting pods fit nowhere, its volumes are claimed and its status is written, a pass leaves the whole store as it found it |
| Settling.RoundsSettle | internal/controller/deployment.go:62-73 | with nodes unchanged and non-negative requests, after two rounds over pairwise unrelated deployments, each in any order, from any pods with the names the controller gives, every further pass over any of them changes nothing |
| Settling.ThirdRoundIsStill | internal/controller/deployment.go:62-73 | the third round, in any order, is a chain of passes that all end where they began |
| Framing.ForeignPodFate | internal/controller/deployment.go:107-137 | decided by the state before the pass: a pod the deployment does not own is unchanged if and only if it is not on an ordinal that is free, with fewer free ones below it than pods are missing |
| Framing.StrangerOverwritten | internal/controller/deployment.go:107-128 | a stranger's pod on ordinal 0 of a deployment that owns no pods never comes through a pass unchanged |
| Framing.OnlyOrdinalsAppear | internal/controller/deployment.go:115-128 | every key that appears in a pass is an ordinal name of the deployment below the wanted count |
| Framing.OtherDeploymentUntouched | internal/controller/deployment.go:172-211 | a pass never changes or deletes a pod created for another deployment, unless the pass is over a deployment of the same name without a namespace |
| Framing.RoundLeavesOthers | internal/controller/deployment.go:62-73 | any number of passes over deployments apart from it leave the pods created for a deployment unchanged |
| Framing.EmptyNamespaceTakesAll | internal/controller/deployment.go:172-182 | after a pass over a deployment without a namespace, with any count, the deployments of its name in all namespaces together have at most the wanted number of pods |
| Framing.UntouchedExactly | internal/controller/deployment.go:172-182 | for two different deployments: passes over the first, with any count from any state, leave the pods created for the second alone if and only if the first has a namespace or another name |
| Names.PodNameInjective | internal/controller/deployment.go:372-377 | no two pairs of deployment name and index give the same pod name |
| Names.OrdinalOfPodName | internal/controller/deployment.go:108-113 | reading the ordinal off a created name gives back the index, up to the largest 64-bit one |
| Names.OrdinalMeans | internal/controller/deployment.go:108-113 | the ordinal of a name is the number after the deployment's prefix, or the whole name read as a number when it has no such prefix |
| Names.AtoiMeans | internal/controller/deployment.go:108-113 | exactly the optionally signed 64-bit decimals are read as ordinals, and as the number they denote |
| Names.DecimalMeans | internal/controller/deployment.go:372-377 | indices are printed in base ten, digit by digit |
| VolumeSafety.ClaimedNodeMeaning | internal/controller/deployment.go:298-316 | the resolved node is the first claimed one in mount order, and none exactly when no mounted volume is claimed |
| VolumeSafety.StepIsSafe | internal/controller/deployment.go:75-170 | for a deployment with mounts, passes with any replica count, passes of unrelated deployments, node changes, pod deletions, status updates, deleting or creating volumes and unrelated changes all keep: at most one owned pod, agreeing claims, owned pods on the claimed node; and a claim is lost exactly when its own volume is deleted or created anew |
| VolumeSafety.VolumePlacement | internal/controller/deployment.go:298-365 | over every history that starts without owned pods and with agreeing claims there is never more than one owned pod, it is assigned to the node of every claim, and a claim stays until its own volume is deleted or created anew |
| VolumeSafety.VolumeStepIsSafe | internal/apiserver/volume_service.go:34-91 | deleting a volume, or creating one over it, keeps the invariant and every other claim |
| VolumeSafety.OtherPassIsOtherStep | internal/controller/deployment.go:75-170 | a pass over an unrelated deployment leaves this deployment's pods and mounted volumes exactly as they were |
| Scheduler.Schedule | internal/scheduler/scheduler.go:39-67 | fails exactly when no candidate is viable; otherwise returns the first viable candidate of maximal free CPU plus memory |
| Scheduler.ChoiceMeans | internal/scheduler/scheduler.go:39-67 | on the fields of the candidates: the first of those with enough CPU, memory, accelerators and free ports that has the most CPU plus memory to spare; none only if all of these are overcommitted |
| Scheduler.AcceleratorsFit | internal/scheduler/scheduler.go:69-80 | true exactly when every positively requested accelerator has that many free |
| Scheduler.PortsFit | internal/scheduler/scheduler.go:82-89 | true exactly when no requested port is in use |
| Scheduler.FitsIsViable | internal/scheduler/scheduler.go:39-62 | with non-negative requests a node that fits is never rejected by the score comparison |
| Usage.PodResourceRequest | internal/controller/scheduling.go:39-51 | in every dimension the request is the sum over the containers |
| Cluster.AskedConcat | internal/controller/scheduling.go:39-51 | requests and ports of containers put together add up |
| Cluster.AskedOne | internal/controller/scheduling.go:39-51 | one container asks for its own CPU, memory, accelerators and ports |
| Usage.ComputeNodeUsage | internal/controller/deployment.go:235-267 | conservation: for any listing order a node's usage is the sum of the requests of the pods assigned to it, in CPU, memory and every accelerator, and its ports are theirs |
| Usage.BuildNodeCandidates | internal/controller/scheduling.go:13-37 | one candidate for each ready, schedulable node, with its allocatable amounts and recomputed usage |
| Placement.RoundIsSound | internal/controller/deployment.go:269-296 | one scheduling round, whatever pods wait, keeps a sound cluster sound if and only if every node has room for all the pods sent to it together and no two of them share a port |
| Placement.RoundUsage | internal/controller/deployment.go:269-296 | conservation: a round adds to each node exactly the requests of the pods sent there |
| Placement.BurstIsSound | internal/controller/deployment.go:290-294 | for a round of identical pods that condition is: the chosen node has room for all of them, and there is one pod or there are no ports |
| Placement.SinglePlacementIsSound | internal/controller/deployment.go:269-296 | placing a single pod with non-negative requests keeps a sound cluster within its allocatable amounts and free of port clashes |
| Placement.PassIsSound | internal/controller/deployment.go:75-170 | every pass from a sound cluster with non-negative requests ends in a sound one if and only if the pods it creates on a fixed ready node fit there (room for all, one pod or no ports, no port taken) and the round that places the others fits |
| Placement.PassUsage | internal/controller/deployment.go:75-170 | conservation through a pass: after it a node carries what remains there, what is created there and what is sent there, for requests of any sign |
| Placement.PassSoundExactly | internal/controller/deployment.go:75-170 | every pass, with requests of any sign and however committed the nodes were: no node is overcommitted and no port shared afterwards if and only if on every node those three fit together and the ports fit |
| Placement.PassBurstIsSound | internal/controller/deployment.go:75-170 | for a pass that pins nothing and has identical pods to place: sound if and only if the chosen node has room for all of them, and there is one pod or there are no ports |
| Placement.SmallPassIsSound | internal/controller/deployment.go:75-170 | a pass that pins nothing and has at most one pod to place is always sound |
| Placement.PinnedOvercommits | internal/controller/deployment.go:115-128 | a template that names a ready node too small for one replica: every first pass overcommits it |
| Placement.TwoPodsOvercommit | internal/controller/deployment.go:290-294 | two waiting replicas and one idle node with room for one: the pass places both there |
| Capacity.ComputeClusterCapacity | internal/controller/capacity.go:20-50 | capacity and usage are the sums over the ready, schedulable nodes, in every dimension |
| Capacity.UsageByPod | internal/controller/capacity.go:30-48 | the usage summed by node equals the requests summed over the pods on ready, schedulable nodes |
| Capacity.OfferedMeans | internal/controller/capacity.go:30-41 | the capacity is the sum of the allocatable amounts of the nodes that are ready and not cordoned |
| Capacity.TakenMeans | internal/controller/capacity.go:30-48 | the usage is the sum of the requests of the pods on those nodes |
| Capacity.FitCount | internal/controller/capacity.go:70-82 | the largest 32-bit number of units that fits |
| Capacity.MaxAdditionalReplicas | internal/controller/capacity.go:52-68 | a count fits the free amount in every dimension if and only if it is at most the answer, for every 32-bit count |
| Capacity.AggregateBoundsPlacement | internal/controller/capacity.go:20-82 | any number of identical pods with non-negative requests the scheduler places one after another from an uncommitted cluster fits the starting aggregate |
| Capacity.AnswerBoundsPlacement | internal/controller/capacity.go:52-68 | the scheduler never places more than the answer (up to the 32-bit maximum), and an answer of zero means no node can take the pod |
| Autoscaler.HorizontalAutoscaler.CapToClusterCapacity | internal/controller/hpa.go:138-170 | returns the largest count between current and desired whose extra replicas fit, with the non-negative shortfall, inside 32 bits |
| Autoscaler.HorizontalAutoscaler.ReconcileOne | internal/controller/hpa.go:57-136 | clamps the utilisation-based count and writes it to the stored deployment and nothing else, or nothing when inactive, without running pods, or already there |
| Autoscaler.HorizontalAutoscaler.MeasureRunning | internal/controller/hpa.go:81-95 | counts the running owned pods and adds up their memory use in units of the target |
| Autoscaler.HorizontalAutoscaler.DesiredCount | internal/controller/hpa.go:97-103 | the average utilisation scaled to the current count and rounded up, when that is a 32-bit number |
| Autoscaler.ScaledCountIsLeast | internal/controller/hpa.go:97-103 | that number is the least replica count that brings the average use per running pod down to the target |
| Autoscaler.TargetBounds | internal/controller/hpa.go:98-121 | the target never exceeds the maximum, a scale-up never lowers the count, and it stops exactly where one more replica would not fit |
| Autoscaler.TargetMeans | internal/controller/hpa.go:98-121 | for consistent bounds: a raw count between them is not moved by them, one outside becomes the nearer bound, only free capacity keeps a scale-up short of that, and the result is at least the minimum or the current count |
| Autoscaler.MaximumWins | internal/controller/hpa.go:104-109 | with a minimum above the maximum, the maximum wins |
| Autoscaler.FitsFreeMeans | internal/controller/hpa.go:138-170 | replicas fit when in every dimension they ask for no more than the ready, uncordoned nodes have left |
| Autoscaler.ScaledMeans | internal/controller/hpa.go:123-136 | a stored deployment ends with the target count whenever that differs from the count it was listed with, and otherwise nothing is written |
| Autoscaler.RawMeans | internal/controller/hpa.go:81-103 | the raw count is the least that brings the average memory use of the owned running pods down to what the first container asks for |
| Autoscaler.TargetUnique | internal/controller/hpa.go:98-121 | the target is determined by the cluster, the bounds and the raw count |
| Store.MemStore.Get | internal/store/store.go:28-36 | answers the stored value or that there is none |
| Store.MemStore.Put | internal/store/store.go:38-43 | sets one key and nothing else |
| Store.MemStore.Delete | internal/store/store.go:45-50 | removes one key and nothing else |
| Store.MemStore.List | internal/store/store.go:52-62 | returns exactly the entries whose key starts with the prefix |
| Store.Fsm.CatchUp | internal/store/raft.go:291-309 | restoring a snapshot and applying a log yields the replay of that log from the snapshot |
| Store.Fsm.Apply | internal/store/raft.go:248-267 | applies one command to the map; an unknown one changes nothing |
| Store.SnapshotResumes | internal/store/raft.go:248-309 | a snapshot after any log prefix followed by the rest of the log gives the map of the whole log |
| Store.RaftStore.Get | internal/store/raft.go:147-153 | finds a key exactly when the replicated map has it, and decrypts it with the current or the previous key |
| Store.RaftStore.Put | internal/store/raft.go:155-161 | on the leader stores an encryption of the value under the current key, elsewhere changes nothing |
| Store.RaftStore.Delete | internal/store/raft.go:163-165 | on the leader removes the key, elsewhere changes nothing |
| Store.RaftStore.List | internal/store/raft.go:167-178 | succeeds exactly when every matching value decrypts, and then returns the decrypted entries |
| Store.WrittenIsRead | internal/store/raft.go:180-209 | what is written is read back, with encryption on or off, and still after the next rotation; without a key it is stored as it is |
| Store.RaftStore.RotateEncryptionKey | internal/store/raft.go:211-220 | refuses a key of the wrong size; otherwise the current key becomes the previous one |
| Store.RaftStore.ReencryptAll | internal/store/raft.go:222-241 | completes exactly when everything is readable and leadership lasts; then every value is rewritten under the current key and the previous key is dropped; otherwise each value is as before or rewritten and both keys are kept |
| Store.RaftStore.Rotate | internal/controller/key_rotation.go:45-63 | a rotation followed by a re-encryption, complete or interrupted |
| Rotation.InterruptedIsHarmless | internal/store/raft.go:222-241 | a re-encryption that stops at any point leaves every plaintext readable and unchanged |
| Rotation.CompletedIsClean | internal/store/raft.go:222-241 | a completed one leaves every value under the current key and the contents unchanged |
| Rotation.ResumedIsClean | internal/store/raft.go:222-241 | whatever part of a re-encryption was done, the store is readable, and a later complete one leaves everything under the current key with the original contents |
| Rotation.RotationReadable | internal/store/raft.go:191-220 | after a rotation everything is readable if and only if every value is sealed under the previously current key or the new one |
| Rotation.RotationKeepsView | internal/controller/key_rotation.go:45-63 | a rotation that starts with every value under the current key keeps the contents |
| Rotation.RotationWithoutEncryption | internal/store/raft.go:180-220 | the first rotation of an unencrypted store makes every value unreadable |
| Rotation.SecondRotationLoses | internal/store/raft.go:191-241 | after an interrupted re-encryption and a second rotation a value the first pass had not reached cannot be read |
| Rotation.InterruptedThenRotated | internal/store/raft.go:191-241 | a history from the empty store that ends with such a value |
| Rotation.StaleRewrite | internal/store/raft.go:222-234 | a history from the empty store in which a rewrite undoes a later client write |
| Rotation.StepExact | internal/store/raft.go:147-241 | from a readable store with the plain store's contents, a step leads to such a store if and only if it is harmless: client operations always are, a rotation when nothing is left under an older key, a rewrite when the key is as it was listed |
| Rotation.StoreRefinement | internal/store/raft.go:147-241 | in every state of every history of harmless steps, with clients writing any key at any time, every value is sealed under the current or previous key, and each get and each list answers what the plain store answers |
| Rotation.InterruptedIsRun | internal/store/raft.go:222-241 | an interrupted re-encryption is a run of the machine |
| Rotation.CompletedIsRun | internal/store/raft.go:222-241 | a completed re-encryption is a run of the machine |
| Rotation.Serve | internal/store/raft.go:155-241 | each put, delete, rotation and re-encryption on the store class is a trace of the machine, and keeps it in step if and only if it is not a harmful rotation |
| Rotation.RewriteInStep | internal/store/raft.go:222-234 | rewriting a listed value keeps the store in step if and only if the key still exists and still has the listed value |
| Registry.EncodeInjective | internal/registry/registry.go:22-27 | identities with slash-free kinds and namespaces, and slash-free names where they are cluster-scoped, never share a key |
| Registry.EncodeCollides | internal/registry/registry.go:22-27 | for arbitrary namespaces and names: two objects share a key if and only if their kinds agree and the namespace path of one continues in the name of the other |
| Registry.EncodeCollidesOnlyByShadow | internal/registry/registry.go:22-27 | for slash-free namespaces and arbitrary names: they share a key if and only if they are equal, or one is cluster-scoped and named like the namespace and name of the other |
| Registry.PrefixSelectsExactly | internal/registry/registry.go:54-58 | for arbitrary names: the listing prefix selects the objects of the kind and namespace, and the cluster-scoped ones whose name begins with its path |
| Registry.PrefixSelects | internal/registry/registry.go:54-58 | the listing prefix selects exactly the kind and namespace, or the whole kind for the empty namespace |
| Registry.Registry.Put | internal/registry/registry.go:29-35 | changes one entry of one registry's table and nothing of any other |
| Registry.Registry.Get | internal/registry/registry.go:37-48 | answers from the registry's own table |
| Registry.Registry.Delete | internal/registry/registry.go:50-52 | removes one entry of one registry's table |
| Registry.Registry.List | internal/registry/registry.go:54-74 | returns each object of the kind and namespace once |
| Registry.RegistriesIndependent | internal/registry/registry.go:22-74 | after any operations by any registries, without a slash in a cluster-scoped name, the shared store represents independent tables |
| Registry.SlashesCollide | internal/registry/registry.go:22-27 | a slash in a cluster-scoped name collides with a namespaced object |
| CircuitBreaker.Normalised | internal/mesh/circuitbreaker.go:36-44 | threshold and timeout are the given ones when positive, otherwise 5 and 30 seconds |
| CircuitBreaker.Breaker.Allow | internal/mesh/circuitbreaker.go:46-58 | answers and moves as the transition function says |
| CircuitBreaker.Breaker.RecordSuccess | internal/mesh/circuitbreaker.go:60-65 | closes the breaker and forgets the failures |
| CircuitBreaker.Breaker.RecordFailure | internal/mesh/circuitbreaker.go:67-76 | counts the failure and opens when half-open or at the threshold |
| CircuitBreaker.StateOfHistory | internal/mesh/circuitbreaker.go:46-76 | for every history the state is read off it: closed exactly below the threshold, half-open exactly when probed after the timeout, opened at the last failure |
| CircuitBreaker.HistoryNext | internal/mesh/circuitbreaker.go:60-76 | failures are counted since the last success, and the last failure is the latest one |
| CircuitBreaker.AllowClosedForm | internal/mesh/circuitbreaker.go:46-58 | with a clock that never goes back, a request is let through exactly when failures since the last success are below the threshold or the timeout has passed since the last failure |
| NodePorts.ServiceApi.AllocateNodePort | internal/apiserver/service_service.go:63-80 | returns the least port from 30000 to 32767 that no service has, and none only if each has one |
| NodePorts.ServiceApi.NodePortInUse | internal/apiserver/service_service.go:82-97 | true exactly when another service has the port |
| NodePorts.ServiceApi.CreateService | internal/apiserver/service_service.go:35-61 | each outcome with its exact condition, and the store unchanged unless it succeeds |
| NodePorts.ServiceApi.DeleteService | internal/apiserver/service_service.go:123-128 | removes one service |
| NodePorts.PortsStayDistinct | internal/apiserver/service_service.go:35-97 | over every history of creates, overwrites and deletes that starts with them so, the stored node ports are non-zero and pairwise distinct |
| NodePorts.AgentTable | internal/agent/nodeport.go:29-51 | for distinct stored ports and any listing order, a port is in the agent's table exactly when one stored service serves it on this node, with that service's target |
| NodePorts.EntryMeans | internal/agent/nodeport.go:32-51 | a service with an endpoint on this node is proxied to its target port, or to its port when it has none; with neither, or without an endpoint here, not at all |
| NodePorts.NoEntryWithoutService | internal/agent/nodeport.go:32-51 | a port that no service has is not proxied |
| NodePorts.NoZeroEntry | internal/agent/nodeport.go:33-36 | a service without a node port is never proxied |
| NodePorts.ReconciledMeans | internal/agent/nodeport.go:53-83 | after a reconcile no proxy runs that is not desired or has another target, one that had its target keeps running, and if every port can be opened the proxies are the desired ones |
| NodePorts.NodePortManager.Reconcile | internal/agent/nodeport.go:29-83 | afterwards the proxies are the desired ones minus those that had to be started and could not |
| MissingStreaks.ProcessRuntime.CheckContainerdExits | internal/agent/process.go:315-343 | every streak moves as specified and the exits are the expired pods, once each; a failed listing changes nothing |
| MissingStreaks.TickMeans | internal/agent/process.go:323-337 | one tick leaves a pod without a container alone, clears the count of one that runs, and counts up one that is missing, which exits the third time |
| MissingStreaks.ThirdTickExits | internal/agent/process.go:323-337 | of three missing ticks in a row the third reports the exit and the first two do not |
| MissingStreaks.PlainProcessNeverExpires | internal/agent/process.go:324-326 | over every history a pod tracked without a container is never reported exited |
| MissingStreaks.ProcessRuntime.Start | internal/agent/process.go:287-294 | tracks the new container under the pod key, keeping the restart count |
| MissingStreaks.ProcessRuntime.Restart | internal/agent/process.go:436-444 | counts the restart, then starts |
| MissingStreaks.ProcessRuntime.Stop | internal/agent/process.go:446-464 | forgets the pod and leaves its streak as it is |
| MissingStreaks.StreakCounts | internal/agent/process.go:315-343 | over every history a pod's streak is its trailing number of missing observations modulo three |
| MissingStreaks.ExitOnEveryThird | internal/agent/process.go:323-337 | an exit is reported exactly when that number reaches a multiple of three |
| MissingStreaks.FreshContainerExpires | internal/agent/process.go:446-464 | the count survives a stop, so one missing observation of a new container can report an exit |
| Quota.PodApi.Admit | internal/admission/quota.go:23-58 | admits exactly when, for CPU and for memory where limited, what the pods of the namespace ask for plus the request, times the replicas, stays within the quota |
| Quota.PodApi.CreatePod | internal/apiserver/pod_service.go:29-44 | stores the pod exactly when it has a name and every policy admits it |
| Quota.PodApi.DeletePod | internal/apiserver/pod_service.go:62-67 | removes one pod |
| Quota.PodApi.UpdatePodStatus | internal/apiserver/pod_service.go:69-87 | replaces the status of an existing pod, refused to a node the pod is not assigned to |
| Quota.QuotaHolds | internal/admission/quota.go:23-58 | over every history from the empty store of admitted creates, overwrites, deletes and status updates of pods that ask for no negative amount of what is limited, no namespace exceeds a positive quota |
| Quota.WithinQuotaMeans | internal/admission/quota.go:33-56 | within quota means that the requests of the pods of a namespace add up to no more than the CPU and the memory limit |
| Quota.QuotaWithstands | internal/admission/quota.go:23-58 | the quota holds in every history with a given pod in it if and only if the pod asks for no negative amount of what is limited, or is above a limit by itself |
| Quota.NegativeRequestBreaksQuota | internal/admission/quota.go:33-56 | for every quota and every pod with a negative total in a limited dimension that fits the others: it admits a pod above the quota, and deleting the first leaves the namespace over it |
| CommandLine.ParseCommandFromInput | internal/dashboard/static/app.js:7-50 | the character loop computes the reader automaton, which the following rows describe |
| CommandLine.ParsePays | internal/dashboard/static/app.js:7-50 | the arguments read, plus the whitespace inside them, number at most one more than the whitespace of the input |
| CommandReader.LineReads | internal/dashboard/static/app.js:7-50 | every line of arguments made of bare characters, backslashed characters and stretches in either kind of quotes, separated and surrounded by any whitespace, is read as exactly those arguments |
| CommandReader.OpenQuoteReads | internal/dashboard/static/app.js:25-36 | a quote that is never closed runs to the end of the line |
| CommandReader.FinalBackslash | internal/dashboard/static/app.js:14-23 | a backslash at the very end is dropped |
| CommandReader.QuotedReads | internal/dashboard/static/app.js:25-36 | text between quotes of either kind is one argument |
| CommandReader.BackslashedReads | internal/dashboard/static/app.js:14-23 | with a backslash before every character any text is one argument |
| CommandReader.SeparatorsAre | internal/dashboard/static/app.js:37-44 | arguments are separated at exactly the whitespace characters |
| CommandReader.FormatMeans | internal/dashboard/static/app.js:1-5 | arguments are joined by single spaces, and one with whitespace is printed between double quotes with backslashes before backslashes and double quotes |
| CommandLine.RoundTrip | internal/dashboard/static/app.js:1-50 | printing and reading back returns the same list if and only if every argument contains whitespace, or is non-empty and free of backslashes and quotes |

## Left out

- 64-bit wrap-around: resource sums and scores are unbounded integers; 32-bit replica counts and ports are bounded.
- Store errors and races: every store call succeeds except where leadership is a parameter, and a handler or a pass is one step. Two concurrent service creations can pick the same port.
- Autoscaler.HorizontalAutoscaler.CapToClusterCapacity: stated for a non-negative current count below the desired one, the only case it is called in.
- Placement.PassIsSound: stated for non-negative requests; requests of any sign are in PassSoundExactly.
- VolumeSafety.VolumePlacement: clients do not create pods that carry the deployment's owner label themselves.
- Rotation.StoreRefinement: one rotator, so a rotation does not start inside a pass; encryption is on from the start.
- Settling.RoundsSettle: no node, pod status, volume or deployment changes between the rounds, and none of the pods of the deployments carries a foreign name.
- Autoscaler.HorizontalAutoscaler.ReconcileOne: the utilisation is a real number, without the rounding of floating point; there are at most 2147483647 pods.
- Registry.Registry.Put: kinds and namespaces are free of slashes, and so are cluster-scoped names; what happens otherwise is in EncodeCollides.
- Registry.Registry.List: the order of the result is arbitrary, and objects are not decoded.
- Quota.QuotaHolds: a deployment is admitted once, when it is created; the pods its controller creates later are not part of the history.
- The pod controller for pods without an owner, cascade deletion and service endpoint resolution: no harder property than the ones above.
- The Raft protocol, persistence, restart after a rotation and key distribution to other replicas: one running leader with its committed log.
- Protobuf and JSON encoding: stored objects are values, and a decoded object equals the encoded one.
- Cryptography, certificates, RBAC, network policies, image signing and the other admission policies.
- Container, build, WASM and file handling in the agent, the rest of the dashboard, the command-line client.
- FinOps totals: floating point.
