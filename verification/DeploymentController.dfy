/** internal/controller/deployment.go: the reconciler over the shared store. */
module DeploymentController {
  import opened Names
  import opened Cluster
  import opened Scheduler
  import opened Sums
  import opened Usage
  import opened Reconcile

  /** How `reconcileOne` ends. A negative replica count indexes the owned list out of range. */
  datatype Outcome = Done | DeploymentGone | IndexOutOfRange

  class Controller {
    var pods: Pods
    var nodes: Nodes
    var volumes: Volumes
    var deployments: Deployments

    constructor (s: State)
      ensures Current() == s
    {
      pods, nodes, volumes, deployments := s.pods, s.nodes, s.volumes, s.deployments;
    }

    ghost function Current(): State
      reads this
    {
      State(pods, nodes, volumes, deployments)
    }

    /** Lists the deployment's pods, evicting the dead and the finished, and compacts the listing in place. */
    method OwnedPods(d: Deployment) returns (owned: seq<ObjectKey>)
      modifies this`pods
      ensures pods == Swept(d, nodes, old(pods))
      ensures Listing(owned, Survivors(d, nodes, old(pods)))
    {
      var snapshot := pods;
      var scope := set k | k in snapshot && InScope(d, k);
      var listed := ListKeys(scope);
      var all := new ObjectKey[|listed|](i requires 0 <= i < |listed| => listed[i]);
      var w := 0;
      ghost var seen := {};
      SweepStart(d, nodes, snapshot);
      for i := 0 to all.Length
        invariant w <= i
        invariant forall j :: i <= j < |listed| ==> all[j] == listed[j] && listed[j] !in seen
        invariant seen == set j | 0 <= j < i :: listed[j]
        invariant seen <= scope
        invariant Listing(all[..w], SurvivorsAmong(d, nodes, snapshot, seen))
        invariant pods == SweptOnly(d, nodes, snapshot, seen)
      {
        var k := all[i];
        var p := snapshot[k];
        SweepStep(d, nodes, snapshot, seen, k);
        seen := seen + {k};
        if Owner(p.labels) != d.key.name {
          continue;
        }
        if p.spec.nodeName != "" && !NodeReady(nodes, p.spec.nodeName) {
          pods := pods - {k};
          continue;
        }
        if Terminal(p.phase) {
          pods := pods - {k};
          continue;
        }
        ghost var kept := all[..w];
        all[w] := k;
        w := w + 1;
        assert all[..w] == kept + [k];
      }
      assert seen == scope;
      SweepDone(d, nodes, snapshot);
      owned := all[..w];
    }

    /** The node the mounts are pinned to, if one of the volumes is claimed. */
    method ResolveVolumeNode(namespace: string, mounts: seq<string>) returns (node: string)
      ensures node == ClaimedNode(volumes, namespace, mounts)
    {
      for i := 0 to |mounts|
        invariant ClaimedNode(volumes, namespace, mounts) == ClaimedNode(volumes, namespace, mounts[i..])
      {
        var k := ObjectKey(namespace, mounts[i]);
        if k !in volumes {
          continue;
        }
        if volumes[k].nodeName != "" {
          return volumes[k].nodeName;
        }
      }
      return "";
    }

    method OccupiedOrdinals(d: Deployment, owned: seq<ObjectKey>, ghost keys: set<ObjectKey>) returns (occupied: set<int>)
      requires Listing(owned, keys)
      ensures occupied == Occupied(d, keys)
    {
      occupied := {};
      for i := 0 to |owned|
        invariant occupied == Occupied(d, set k | k in owned[..i])
      {
        assert owned[..i + 1] == owned[..i] + [owned[i]];
        var idx := Ordinal(d.key.name, owned[i].name);
        if idx.Some? {
          occupied := occupied + {idx.value};
        }
      }
      assert (set k | k in owned[..|owned|]) == keys;
    }

    /** Fills the first free ordinals. Each round either creates a pod or passes an occupied ordinal. */
    method FillOrdinals(d: Deployment, occupied: set<int>, count: nat, claimed: string) returns (ghost ordinals: set<nat>)
      modifies this`pods
      ensures SmallestFree(ordinals, occupied, count)
      ensures pods == Grown(d, claimed, old(pods), ordinals)
    {
      ordinals := {};
      var toCreate := count;
      var i := 0;
      GrownNone(d, claimed, pods);
      while toCreate > 0
        invariant 0 <= i && 0 <= toCreate
        invariant |ordinals| + toCreate == count
        invariant forall j :: j in ordinals ==> j < i && j !in occupied
        invariant forall j: nat :: j < i ==> j in ordinals || j in occupied
        invariant pods == Grown(d, claimed, old(pods), ordinals)
        decreases toCreate + |AtOrAbove(occupied, i)|
      {
        AtOrAboveNext(occupied, i);
        if i in occupied {
          i := i + 1;
          continue;
        }
        var pod := NewPod(d, "");
        if claimed != "" {
          pod := pod.(spec := pod.spec.(nodeName := claimed));
        }
        assert pod == NewPod(d, claimed);
        GrownNext(d, claimed, old(pods), ordinals, i);
        pods := pods[NewKey(d, i) := pod];
        ordinals := ordinals + {i};
        toCreate := toCreate - 1;
        i := i + 1;
      }
    }

    method DeleteSurplus(owned: seq<ObjectKey>, want: nat, ghost keys: set<ObjectKey>) returns (ghost dropped: set<ObjectKey>)
      requires Listing(owned, keys) && want <= |owned|
      modifies this`pods
      ensures dropped <= keys && |dropped| == |owned| - want
      ensures pods == old(pods) - dropped
    {
      dropped := {};
      for i := want to |owned|
        invariant dropped == set j | want <= j < i :: owned[j]
        invariant |dropped| == i - want
        invariant pods == old(pods) - dropped
      {
        assert owned[i] !in dropped;
        pods := pods - {owned[i]};
        dropped := dropped + {owned[i]};
      }
    }

    /** Places one pod, or records why it waits. */
    method SchedulePod(cs: seq<Candidate>, k: ObjectKey)
      requires k in pods
      modifies this`pods
      ensures pods == old(pods)[k := Placed(old(pods)[k], cs)]
    {
      var p := pods[k];
      var request := PodResourceRequest(p.spec.containers);
      var node := Schedule(request, cs);
      if node.None? {
        var msg := PendingMessage(request.ports);
        if p.message == msg {
          assert pods[k := p] == pods;
          return;
        }
        pods := pods[k := p.(message := msg)];
        return;
      }
      var q := p.(spec := p.spec.(nodeName := node.value));
      if q.message != "" {
        q := q.(message := "");
      }
      pods := pods[k := q];
    }

    method CollectUnassigned(d: Deployment, owned: seq<ObjectKey>) returns (unassigned: seq<ObjectKey>)
      requires Listing(owned, Mine(d, pods))
      ensures Listing(unassigned, Waiting(d, pods))
    {
      unassigned := [];
      for i := 0 to |owned|
        invariant Listing(unassigned, set j | 0 <= j < i && pods[owned[j]].spec.nodeName == "" :: owned[j])
      {
        if pods[owned[i]].spec.nodeName == "" {
          unassigned := unassigned + [owned[i]];
        }
      }
      forall k | k in Waiting(d, pods) ensures exists j :: 0 <= j < |owned| && owned[j] == k {
        assert k in Mine(d, pods);
      }
      assert Waiting(d, pods) == set j | 0 <= j < |owned| && pods[owned[j]].spec.nodeName == "" :: owned[j];
    }

    /** The placing loop: every listed pod is placed on the same candidates. */
    method ScheduleEach(candidates: seq<Candidate>, unassigned: seq<ObjectKey>, ghost waiting: set<ObjectKey>)
      requires Listing(unassigned, waiting) && waiting <= pods.Keys
      modifies this`pods
      ensures pods == PlacedOnly(old(pods), candidates, waiting)
    {
      ghost var before := pods;
      ghost var done: set<ObjectKey> := {};
      for i := 0 to |unassigned|
        invariant forall k :: k in done <==> k in unassigned[..i]
        invariant pods == PlacedOnly(before, candidates, done)
      {
        assert unassigned[..i + 1] == unassigned[..i] + [unassigned[i]];
        assert unassigned[i] in waiting;
        PlacedNext(before, candidates, done, unassigned[i]);
        SchedulePod(candidates, unassigned[i]);
        done := done + {unassigned[i]};
      }
      assert unassigned[..|unassigned|] == unassigned;
      assert done == waiting;
    }

    /** Schedules the unassigned owned pods against one set of candidates, computed once. */
    method ScheduleUnassigned(d: Deployment, owned: seq<ObjectKey>) returns (ghost cs: seq<Candidate>)
      requires "" !in nodes
      requires Listing(owned, Mine(d, pods))
      modifies this`pods
      ensures Waiting(d, old(pods)) != {} ==> CandidatesOf(cs, nodes, old(pods))
      ensures pods == Scheduled(d, old(pods), cs)
    {
      var unassigned := CollectUnassigned(d, owned);
      if unassigned == [] {
        cs := [];
        assert Waiting(d, pods) == {};
        NothingWaiting(d, pods, cs);
        return;
      }
      var usage := ComputeNodeUsage(pods);
      var candidates := BuildNodeCandidates(nodes, usage, pods);
      cs := candidates;
      PlacedAll(d, pods, cs);
      ScheduleEach(candidates, unassigned, Waiting(d, pods));
    }

    /** The first pod on a node claims the mounted volumes for that node. */
    method ClaimVolumeNodes(d: Deployment, owned: seq<ObjectKey>)
      requires Listing(owned, Mine(d, pods))
      modifies this`volumes
      ensures Claims(d, pods, old(volumes), volumes)
    {
      var mounts := d.template.mounts;
      if mounts == [] {
        return;
      }
      var nodeName := FirstAssigned(d, owned);
      if nodeName == "" {
        return;
      }
      StampMounts(d, nodeName);
    }

    method FirstAssigned(d: Deployment, owned: seq<ObjectKey>) returns (nodeName: string)
      requires Listing(owned, Mine(d, pods))
      ensures nodeName == "" <==> Mine(d, pods) == Waiting(d, pods)
      ensures nodeName != "" ==> exists k :: k in Mine(d, pods) && k !in Waiting(d, pods) && pods[k].spec.nodeName == nodeName
    {
      for i := 0 to |owned|
        invariant forall j :: 0 <= j < i ==> pods[owned[j]].spec.nodeName == ""
      {
        var n := pods[owned[i]].spec.nodeName;
        if n != "" {
          assert owned[i] in Mine(d, pods) && owned[i] !in Waiting(d, pods);
          return n;
        }
      }
      assert Mine(d, pods) == Waiting(d, pods);
      return "";
    }

    method StampMounts(d: Deployment, nodeName: string)
      requires nodeName != ""
      modifies this`volumes
      ensures volumes == Stamped(d, old(volumes), nodeName)
    {
      var mounts := d.template.mounts;
      ghost var before := volumes;
      for i := 0 to |mounts|
        invariant volumes == map k | k in before ::
          if k.namespace == d.key.namespace && k.name in mounts[..i] then Stamp(before[k], nodeName, d.key.name) else before[k]
      {
        assert mounts[..i + 1] == mounts[..i] + [mounts[i]];
        var k := ObjectKey(d.key.namespace, mounts[i]);
        if k !in volumes {
          continue;
        }
        var vol := volumes[k];
        if vol.nodeName != "" {
          continue;
        }
        volumes := volumes[k := Volume(nodeName, vol.labels[OWNER_LABEL := d.key.name])];
      }
      assert mounts[..|mounts|] == mounts;
    }

    method CountRunning(d: Deployment, owned: seq<ObjectKey>) returns (ready: nat)
      requires Listing(owned, Mine(d, pods))
      ensures ready == |RunningPods(d, pods)|
    {
      ready := 0;
      ghost var seen := {};
      for i := 0 to |owned|
        invariant seen == set j | 0 <= j < i && pods[owned[j]].phase == Running :: owned[j]
        invariant ready == |seen|
      {
        assert owned[i] !in seen;
        if pods[owned[i]].phase == Running {
          ready := ready + 1;
          seen := seen + {owned[i]};
        }
      }
      assert forall k :: k in RunningPods(d, pods) ==> k in Mine(d, pods);
      assert seen == RunningPods(d, pods);
    }

    /** Brings the number of owned pods to the wanted count; fails on a negative one. */
    method Resize(d: Deployment, owned: seq<ObjectKey>, ghost keys: set<ObjectKey>) returns (ok: bool, ghost z: Sizing)
      requires Listing(owned, keys)
      modifies this`pods
      ensures ok <==> Want(d) >= 0
      ensures ok ==> Sizes(d, keys, z) && pods == Sized(d, volumes, old(pods), z)
      ensures !ok ==> pods == old(pods)
    {
      ListingCardinality(owned, keys);
      var mounts := d.template.mounts;
      var want: int := d.replicas;
      if mounts != [] && want > 1 {
        want := 1;
      }
      var have := |owned|;
      ok, z := true, Keep;
      if have < want {
        var claimed := "";
        if mounts != [] {
          claimed := ResolveVolumeNode(d.key.namespace, mounts);
        }
        var occupied := OccupiedOrdinals(d, owned, keys);
        ghost var ordinals := FillOrdinals(d, occupied, want - have, claimed);
        z := Grow(ordinals);
      } else if have > want {
        if want < 0 {
          return false, Keep;
        }
        ghost var dropped := DeleteSurplus(owned, want, keys);
        z := Trim(dropped);
      }
    }

    /** The second half of a pass: placement, volume claims and the status write. */
    method Settle(d: Deployment, owned: seq<ObjectKey>) returns (found: bool, ghost cs: seq<Candidate>)
      requires "" !in nodes
      requires Listing(owned, Mine(d, pods))
      modifies this`pods, this`volumes, this`deployments
      ensures Waiting(d, old(pods)) != {} ==> CandidatesOf(cs, nodes, old(pods))
      ensures pods == Scheduled(d, old(pods), cs)
      ensures Claims(d, pods, old(volumes), volumes)
      ensures deployments == Reported(d, pods, old(deployments))
      ensures found <==> d.key in old(deployments)
    {
      cs := ScheduleUnassigned(d, owned);
      ScheduledKeepsMine(d, old(pods), cs);
      if d.template.mounts != [] {
        ClaimVolumeNodes(d, owned);
      }
      var ready := CountRunning(d, owned);
      found := d.key in deployments;
      if !found {
        return;
      }
      ListingCardinality(owned, Mine(d, pods));
      deployments := deployments[d.key := deployments[d.key].(status := DeploymentStatus(|owned|, ready))];
    }

    /** One pass over one deployment, as a single step. */
    method ReconcileOne(d: Deployment) returns (outcome: Outcome)
      requires "" !in nodes
      modifies this
      ensures outcome == IndexOutOfRange <==> d.replicas < 0
      ensures d.replicas >= 0 ==> Pass(d, old(Current()), Current())
      ensures d.replicas >= 0 ==> (outcome == Done <==> d.key in old(deployments))
      ensures d.replicas < 0 ==> Current() == old(Current()).(pods := Swept(d, old(nodes), old(pods)))
    {
      ghost var s := Current();
      var owned := OwnedPods(d);
      ghost var swept := pods;
      var ok, z := Resize(d, owned, Survivors(d, s.nodes, s.pods));
      if !ok {
        return IndexOutOfRange;
      }
      ghost var sized := pods;
      owned := OwnedPods(d);
      ghost var settled := pods;
      SweptIsMine(d, nodes, sized);
      var found, cs := Settle(d, owned);
      PassFrom(d, s, swept, z, sized, settled, cs, Current());
      return if found then Done else DeploymentGone;
    }

    /** One round over all deployments, in the order the store lists them. The first one with a negative count ends it. */
    method ReconcileAll() returns (crashed: bool, ghost ds: seq<Deployment>, ghost states: seq<State>)
      requires "" !in nodes
      requires forall k :: k in deployments ==> deployments[k].key == k
      modifies this
      ensures |states| == |ds| + 1 && states[0] == old(Current())
      ensures forall i :: 0 <= i < |ds| ==> Pass(ds[i], states[i], states[i + 1])
      ensures forall i :: 0 <= i < |ds| ==> ds[i].key in old(deployments) && ds[i] == old(deployments)[ds[i].key]
      ensures forall i, j :: 0 <= i < j < |ds| ==> ds[i].key != ds[j].key
      ensures crashed <==> exists k :: k in old(deployments) && old(deployments)[k].replicas < 0
      ensures !crashed ==> |ds| == |old(deployments)| && states[|ds|] == Current()
      ensures crashed ==> exists k ::
        && k in old(deployments) && old(deployments)[k].replicas < 0
        && Current() == states[|ds|].(pods := Swept(old(deployments)[k], old(nodes), states[|ds|].pods))
    {
      var snapshot := deployments;
      var all := ListKeys(snapshot.Keys);
      ListingCardinality(all, snapshot.Keys);
      ds, states := [], [Current()];
      for i := 0 to |all|
        invariant |ds| == i && |states| == i + 1
        invariant states[0] == old(Current()) && states[i] == Current()
        invariant nodes == old(nodes)
        invariant forall j :: 0 <= j < i ==> ds[j] == snapshot[all[j]] && ds[j].replicas >= 0
        invariant forall j :: 0 <= j < i ==> Pass(ds[j], states[j], states[j + 1])
      {
        var d := snapshot[all[i]];
        var outcome := ReconcileOne(d);
        if outcome == IndexOutOfRange {
          return true, ds, states;
        }
        ds := ds + [d];
        states := states + [Current()];
      }
      forall k | k in snapshot ensures snapshot[k].replicas >= 0 {
        var j :| 0 <= j < |all| && all[j] == k;
        assert ds[j] == snapshot[k];
      }
      crashed := false;
    }
  }
}
