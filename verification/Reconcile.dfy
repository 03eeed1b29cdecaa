/** What one `reconcileOne` pass of the deployment controller does to the stored objects, stated on values. */
module Reconcile {
  import opened Names
  import opened Cluster
  import opened Scheduler
  import opened Usage

  type Volumes = map<ObjectKey, Volume>
  type Deployments = map<ObjectKey, Deployment>

  datatype State = State(pods: Pods, nodes: Nodes, volumes: Volumes, deployments: Deployments)

  // ---------------------------------------------------------------- ownership and eviction

  /** Listing the empty namespace spans all namespaces. */
  predicate InScope(d: Deployment, k: ObjectKey)
  {
    d.key.namespace == "" || k.namespace == d.key.namespace
  }

  predicate IsOwned(d: Deployment, k: ObjectKey, p: Pod)
  {
    InScope(d, k) && Owner(p.labels) == d.key.name
  }

  ghost function Mine(d: Deployment, pods: Pods): set<ObjectKey>
  {
    set k | k in pods && IsOwned(d, k, pods[k])
  }

  predicate NodeReady(nodes: Nodes, n: string)
  {
    n in nodes && nodes[n].ready
  }

  predicate Terminal(p: Phase) { p == Succeeded || p == Failed }

  predicate Alive(nodes: Nodes, p: Pod)
  {
    (p.spec.nodeName == "" || NodeReady(nodes, p.spec.nodeName)) && !Terminal(p.phase)
  }

  predicate Kept(d: Deployment, nodes: Nodes, k: ObjectKey, p: Pod)
  {
    IsOwned(d, k, p) ==> Alive(nodes, p)
  }

  /** The pods left after `ownedPods` has evicted the dead and finished ones. */
  ghost function Swept(d: Deployment, nodes: Nodes, pods: Pods): Pods
  {
    map k | k in pods && Kept(d, nodes, k, pods[k]) :: pods[k]
  }

  ghost function Survivors(d: Deployment, nodes: Nodes, pods: Pods): set<ObjectKey>
  {
    set k | k in pods && IsOwned(d, k, pods[k]) && Alive(nodes, pods[k])
  }

  // ---------------------------------------------------------------- sizing

  function Want(d: Deployment): int
  {
    if d.template.mounts != [] && d.replicas > 1 then 1 else d.replicas
  }

  /** The node of the first mounted volume that is already claimed. */
  function ClaimedNode(volumes: Volumes, namespace: string, mounts: seq<string>): string
  {
    if mounts == [] then ""
    else
      var k := ObjectKey(namespace, mounts[0]);
      if k in volumes && volumes[k].nodeName != "" then volumes[k].nodeName
      else ClaimedNode(volumes, namespace, mounts[1..])
  }

  function NewNode(d: Deployment, claimed: string): string
  {
    if claimed != "" then claimed else d.template.nodeName
  }

  function NewPod(d: Deployment, claimed: string): Pod
  {
    Pod(d.selector[OWNER_LABEL := d.key.name], d.template.(nodeName := NewNode(d, claimed)), Pending, "")
  }

  function NewKey(d: Deployment, index: nat): ObjectKey
  {
    ObjectKey(d.key.namespace, PodName(d.key.name, index))
  }

  ghost function NewKeys(d: Deployment, ordinals: set<nat>): set<ObjectKey>
  {
    set i | i in ordinals :: NewKey(d, i)
  }

  function Occupied(d: Deployment, keys: set<ObjectKey>): set<int>
  {
    set k | k in keys && Ordinal(d.key.name, k.name).Some? :: Ordinal(d.key.name, k.name).value
  }

  /** The `n` smallest naturals outside `occupied`. */
  ghost predicate SmallestFree(ordinals: set<nat>, occupied: set<int>, n: int)
  {
    && |ordinals| == n
    && (forall i :: i in ordinals ==> i !in occupied)
    && (forall i, j: nat :: i in ordinals && j < i ==> j in ordinals || j in occupied)
  }

  /** The occupied ordinals a fill that has reached `i` may still meet. */
  ghost function AtOrAbove(occupied: set<int>, i: int): set<int>
  {
    set j | j in occupied && j >= i
  }

  /** How a pass changes the number of pods. */
  datatype Sizing = Grow(ordinals: set<nat>) | Trim(dropped: set<ObjectKey>) | Keep

  ghost predicate Sizes(d: Deployment, survivors: set<ObjectKey>, z: Sizing)
  {
    match z
    case Grow(ordinals) => |survivors| < Want(d) && SmallestFree(ordinals, Occupied(d, survivors), Want(d) - |survivors|)
    case Trim(dropped) => |survivors| > Want(d) && dropped <= survivors && |dropped| == |survivors| - Want(d)
    case Keep => |survivors| == Want(d)
  }

  ghost function Grown(d: Deployment, claimed: string, pods: Pods, ordinals: set<nat>): Pods
  {
    pods + map k | k in NewKeys(d, ordinals) :: NewPod(d, claimed)
  }

  ghost function Sized(d: Deployment, volumes: Volumes, pods: Pods, z: Sizing): Pods
  {
    match z
    case Grow(ordinals) => Grown(d, ClaimedNode(volumes, d.key.namespace, d.template.mounts), pods, ordinals)
    case Trim(dropped) => pods - dropped
    case Keep => pods
  }

  /** The owned pods and everything around them once the pass has evicted, sized and evicted again. */
  ghost function Settled(d: Deployment, s: State, z: Sizing): Pods
  {
    Swept(d, s.nodes, Sized(d, s.volumes, Swept(d, s.nodes, s.pods), z))
  }

  // ---------------------------------------------------------------- placement

  function PortList(ports: seq<int>): string
  {
    if ports == [] then ""
    else if |ports| == 1 then Decimal(ports[0])
    else PortList(ports[..|ports| - 1]) + " " + Decimal(ports[|ports| - 1])
  }

  function PendingMessage(ports: seq<int>): string
  {
    if ports == [] then "waiting for a node with enough free CPU/memory"
    else "waiting for a node with enough free CPU/memory and an available port for containerPort(s) [" + PortList(ports) + "]"
  }

  /** An unassigned pod after `schedulePod`. */
  ghost function Placed(p: Pod, cs: seq<Candidate>): Pod
  {
    match Choice(cs, RequestOf(p.spec.containers))
    case None => p.(message := PendingMessage(RequestOf(p.spec.containers).ports))
    case Some(n) => p.(spec := p.spec.(nodeName := n), message := "")
  }

  predicate Unassigned(d: Deployment, k: ObjectKey, p: Pod)
  {
    IsOwned(d, k, p) && p.spec.nodeName == ""
  }

  ghost function Waiting(d: Deployment, pods: Pods): set<ObjectKey>
  {
    set k | k in pods && Unassigned(d, k, pods[k])
  }

  ghost function Scheduled(d: Deployment, pods: Pods, cs: seq<Candidate>): Pods
  {
    map k | k in pods :: if Unassigned(d, k, pods[k]) then Placed(pods[k], cs) else pods[k]
  }

  // ---------------------------------------------------------------- volume claims and status

  predicate Mounted(d: Deployment, k: ObjectKey)
  {
    k.namespace == d.key.namespace && k.name in d.template.mounts
  }

  function Stamp(v: Volume, node: string, deployment: string): Volume
  {
    if v.nodeName != "" then v else Volume(node, v.labels[OWNER_LABEL := deployment])
  }

  /** Every mounted volume that exists and is unclaimed becomes claimed by `node`. */
  ghost function Stamped(d: Deployment, volumes: Volumes, node: string): Volumes
  {
    map k | k in volumes :: if Mounted(d, k) then Stamp(volumes[k], node, d.key.name) else volumes[k]
  }

  ghost predicate Claims(d: Deployment, pods: Pods, before: Volumes, after: Volumes)
  {
    if d.template.mounts == [] || Mine(d, pods) == Waiting(d, pods) then after == before
    else exists k :: k in Mine(d, pods) && k !in Waiting(d, pods) && after == Stamped(d, before, pods[k].spec.nodeName)
  }

  ghost function RunningPods(d: Deployment, pods: Pods): set<ObjectKey>
  {
    set k | k in pods && IsOwned(d, k, pods[k]) && pods[k].phase == Running
  }

  ghost function Reported(d: Deployment, pods: Pods, deployments: Deployments): Deployments
  {
    if d.key in deployments then
      deployments[d.key := deployments[d.key].(status := DeploymentStatus(|Mine(d, pods)|, |RunningPods(d, pods)|))]
    else deployments
  }

  // ---------------------------------------------------------------- the pass

  /** A pass that sizes the deployment by `z` and places pods on the candidates `cs`. */
  ghost predicate PassVia(d: Deployment, s: State, z: Sizing, cs: seq<Candidate>, s': State)
  {
    && Want(d) >= 0
    && Sizes(d, Survivors(d, s.nodes, s.pods), z)
    && (Waiting(d, Settled(d, s, z)) != {} ==> CandidatesOf(cs, s.nodes, Settled(d, s, z)))
    && s'.nodes == s.nodes
    && s'.pods == Scheduled(d, Settled(d, s, z), cs)
    && Claims(d, s'.pods, s.volumes, s'.volumes)
    && s'.deployments == Reported(d, s'.pods, s.deployments)
  }

  ghost predicate Pass(d: Deployment, s: State, s': State)
  {
    exists z, cs :: PassVia(d, s, z, cs, s')
  }

  // ---------------------------------------------------------------- first facts

  /** The sweep restricted to the pods visited so far. */
  ghost function SweptOnly(d: Deployment, nodes: Nodes, pods: Pods, seen: set<ObjectKey>): Pods
  {
    map k | k in pods && (k in seen ==> Kept(d, nodes, k, pods[k])) :: pods[k]
  }

  ghost function SurvivorsAmong(d: Deployment, nodes: Nodes, pods: Pods, seen: set<ObjectKey>): set<ObjectKey>
  {
    set k | k in seen && k in pods && IsOwned(d, k, pods[k]) && Alive(nodes, pods[k])
  }

  lemma SweepStart(d: Deployment, nodes: Nodes, pods: Pods)
    ensures SweptOnly(d, nodes, pods, {}) == pods
    ensures SurvivorsAmong(d, nodes, pods, {}) == {}
  {
  }

  lemma SweepStep(d: Deployment, nodes: Nodes, pods: Pods, seen: set<ObjectKey>, k: ObjectKey)
    requires k in pods && k !in seen
    ensures SweptOnly(d, nodes, pods, seen + {k}) ==
      if Kept(d, nodes, k, pods[k]) then SweptOnly(d, nodes, pods, seen) else SweptOnly(d, nodes, pods, seen) - {k}
    ensures SurvivorsAmong(d, nodes, pods, seen + {k}) ==
      SurvivorsAmong(d, nodes, pods, seen) + if IsOwned(d, k, pods[k]) && Alive(nodes, pods[k]) then {k} else {}
  {
  }

  lemma SweepDone(d: Deployment, nodes: Nodes, pods: Pods)
    ensures SweptOnly(d, nodes, pods, set k | k in pods && InScope(d, k)) == Swept(d, nodes, pods)
    ensures SurvivorsAmong(d, nodes, pods, set k | k in pods && InScope(d, k)) == Survivors(d, nodes, pods)
  {
  }

  lemma GrownNone(d: Deployment, claimed: string, pods: Pods)
    ensures Grown(d, claimed, pods, {}) == pods
  {
    assert NewKeys(d, {}) == {};
  }

  lemma GrownNext(d: Deployment, claimed: string, pods: Pods, ordinals: set<nat>, i: nat)
    ensures Grown(d, claimed, pods, ordinals + {i}) == Grown(d, claimed, pods, ordinals)[NewKey(d, i) := NewPod(d, claimed)]
  {
    assert NewKeys(d, ordinals + {i}) == NewKeys(d, ordinals) + {NewKey(d, i)};
  }

  lemma AtOrAboveNext(occupied: set<int>, i: int)
    ensures |AtOrAbove(occupied, i)| == |AtOrAbove(occupied, i + 1)| + if i in occupied then 1 else 0
  {
    assert AtOrAbove(occupied, i) == AtOrAbove(occupied, i + 1) + if i in occupied then {i} else {};
  }

  /** The stages of a pass, put together. */
  lemma PassFrom(d: Deployment, s: State, swept: Pods, z: Sizing, sized: Pods, settled: Pods, cs: seq<Candidate>, s': State)
    requires Want(d) >= 0
    requires swept == Swept(d, s.nodes, s.pods)
    requires Sizes(d, Survivors(d, s.nodes, s.pods), z)
    requires sized == Sized(d, s.volumes, swept, z)
    requires settled == Swept(d, s.nodes, sized)
    requires Waiting(d, settled) != {} ==> CandidatesOf(cs, s.nodes, settled)
    requires s'.nodes == s.nodes
    requires s'.pods == Scheduled(d, settled, cs)
    requires Claims(d, s'.pods, s.volumes, s'.volumes)
    requires s'.deployments == Reported(d, s'.pods, s.deployments)
    ensures Pass(d, s, s')
  {
    assert PassVia(d, s, z, cs, s');
  }

  /** After a sweep the deployment owns exactly the survivors. */
  lemma SweptIsMine(d: Deployment, nodes: Nodes, pods: Pods)
    ensures Mine(d, Swept(d, nodes, pods)) == Survivors(d, nodes, pods)
  {
  }

  /** Scheduling changes neither ownership nor phases. */
  lemma ScheduledKeepsMine(d: Deployment, pods: Pods, cs: seq<Candidate>)
    ensures Mine(d, Scheduled(d, pods, cs)) == Mine(d, pods)
    ensures RunningPods(d, Scheduled(d, pods, cs)) == RunningPods(d, pods)
  {
  }

  /** Nothing waiting, nothing to place. */
  lemma NothingWaiting(d: Deployment, pods: Pods, cs: seq<Candidate>)
    requires Waiting(d, pods) == {}
    ensures Scheduled(d, pods, cs) == pods
  {
    forall k | k in pods ensures !Unassigned(d, k, pods[k]) {
      assert k !in Waiting(d, pods);
    }
  }

  /** The pods of `done` placed, the others as they were. */
  ghost function PlacedOnly(pods: Pods, cs: seq<Candidate>, done: set<ObjectKey>): Pods
  {
    map k | k in pods :: if k in done then Placed(pods[k], cs) else pods[k]
  }

  lemma PlacedNext(pods: Pods, cs: seq<Candidate>, done: set<ObjectKey>, k: ObjectKey)
    requires k in pods && k !in done
    ensures PlacedOnly(pods, cs, done + {k}) ==
      PlacedOnly(pods, cs, done)[k := Placed(PlacedOnly(pods, cs, done)[k], cs)]
  {
  }

  lemma PlacedAll(d: Deployment, pods: Pods, cs: seq<Candidate>)
    ensures PlacedOnly(pods, cs, Waiting(d, pods)) == Scheduled(d, pods, cs)
  {
    forall k | k in pods ensures k in Waiting(d, pods) <==> Unassigned(d, k, pods[k]) {
    }
  }

  /** Scheduling neither adds nor removes pods and leaves the labels alone. */
  lemma ScheduledAt(d: Deployment, pods: Pods, cs: seq<Candidate>, k: ObjectKey)
    ensures k in Scheduled(d, pods, cs) <==> k in pods
    ensures k in pods ==> Scheduled(d, pods, cs)[k].labels == pods[k].labels
    ensures k in pods && !IsOwned(d, k, pods[k]) ==> Scheduled(d, pods, cs)[k] == pods[k]
  {
  }
}
