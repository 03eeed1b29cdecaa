/** What one pass leaves behind, field by field of the stored objects. */
module PassOutcome {
  import opened Names
  import opened Cluster
  import opened Scheduler
  import opened Usage
  import opened Reconcile
  import opened Convergence
  import opened Fixpoint

  // ---------------------------------------------------------------- which pods, and how many

  /** Ownership is the owner label, within the namespace or, without one, everywhere. */
  lemma OwnedMeans(d: Deployment, pods: Pods, k: ObjectKey)
    requires d.key.name != ""
    ensures k in Mine(d, pods) <==>
      && k in pods && (d.key.namespace == "" || k.namespace == d.key.namespace)
      && "nimbuscore.io/owner-deployment" in pods[k].labels
      && pods[k].labels["nimbuscore.io/owner-deployment"] == d.key.name
  {
  }

  /** An owned pod survives the sweep exactly when it is on no node or on a ready one, and has neither succeeded nor failed;
      nothing else is lost. */
  lemma SweepMeans(d: Deployment, nodes: Nodes, pods: Pods, k: ObjectKey)
    ensures k in Survivors(d, nodes, pods) <==>
      && k in Mine(d, pods)
      && (pods[k].spec.nodeName == "" || (pods[k].spec.nodeName in nodes && nodes[pods[k].spec.nodeName].ready))
      && pods[k].phase != Succeeded && pods[k].phase != Failed
    ensures k in Swept(d, nodes, pods) <==> k in pods && (k in Mine(d, pods) ==> k in Survivors(d, nodes, pods))
    ensures k in Swept(d, nodes, pods) ==> Swept(d, nodes, pods)[k] == pods[k]
  {
  }

  /** No owned pod is finished or on a lost node after a pass. */
  lemma OwnedAfterPass(d: Deployment, s: State, s': State, k: ObjectKey)
    requires Pass(d, s, s') && k in Mine(d, s'.pods)
    ensures s'.pods[k].phase != Succeeded && s'.pods[k].phase != Failed
    ensures s'.pods[k].spec.nodeName == "" || (s'.pods[k].spec.nodeName in s.nodes && s.nodes[s'.pods[k].spec.nodeName].ready)
  {
    Converges(d, s, s');
  }

  /** The node new pods are created on is the claimed one, or else the template's. */
  lemma NewNodeMeans(d: Deployment, s: State)
    ensures NewNodeAlive(d, s) <==>
      var claimed := ClaimedNode(s.volumes, d.key.namespace, d.template.mounts);
      var n := if claimed == "" then d.template.nodeName else claimed;
      n == "" || (n in s.nodes && s.nodes[n].ready)
  {
  }

  /** The count a pass reaches, on the deployment's own fields: its replicas, or one where volumes are mounted. */
  lemma ReachedCount(d: Deployment, s: State, s': State)
    requires Pass(d, s, s')
    ensures d.template.mounts == [] ==>
      (|Mine(d, s'.pods)| == d.replicas <==> |Survivors(d, s.nodes, s.pods)| >= d.replicas || NewNodeAlive(d, s))
    ensures d.template.mounts != [] && d.replicas >= 1 ==>
      (|Mine(d, s'.pods)| == 1 <==> |Survivors(d, s.nodes, s.pods)| >= 1 || NewNodeAlive(d, s))
    ensures d.replicas == 0 ==> Mine(d, s'.pods) == {}
  {
    Converges(d, s, s');
  }

  /** Replicas that no volume and no template pins are always brought to the number asked for. */
  lemma FreeReplicasConverge(d: Deployment, s: State, s': State)
    requires Pass(d, s, s') && d.template.mounts == [] && d.template.nodeName == ""
    ensures |Mine(d, s'.pods)| == d.replicas
  {
    ReachedCount(d, s, s');
  }

  // ---------------------------------------------------------------- the pods themselves

  lemma PassVia0(d: Deployment, s: State, s': State) returns (z: Sizing, cs: seq<Candidate>)
    requires Pass(d, s, s')
    ensures PassVia(d, s, z, cs, s')
  {
    z, cs :| PassVia(d, s, z, cs, s');
  }

  /** What scheduling may change in a pod: the node of one that had none, and the message. */
  lemma PlacedKeeps(p: Pod, cs: seq<Candidate>)
    ensures Placed(p, cs).labels == p.labels && Placed(p, cs).phase == p.phase
    ensures Placed(p, cs).spec == p.spec.(nodeName := Placed(p, cs).spec.nodeName)
    ensures p.spec.nodeName == "" && Placed(p, cs).spec.nodeName != "" ==> Placed(p, cs).message == ""
  {
  }

  /** A pod that was created: the selector's labels and the owner label and no others, the template's spec except for the
      node, pending. */
  lemma CreatedMeans(d: Deployment, s: State, s': State, k: ObjectKey)
    requires Pass(d, s, s')
    requires k in Mine(d, s'.pods) && k !in Survivors(d, s.nodes, s.pods)
    ensures s'.pods[k].labels == d.selector["nimbuscore.io/owner-deployment" := d.key.name]
    ensures s'.pods[k].spec == d.template.(nodeName := s'.pods[k].spec.nodeName)
    ensures s'.pods[k].phase == Pending
    ensures s'.pods[k].spec.nodeName != "" ==> s'.pods[k].message == ""
  {
    var z, cs := PassVia0(d, s, s');
    var p := NewPod(d, ClaimedNode(s.volumes, d.key.namespace, d.template.mounts));
    ScheduledKeepsMine(d, Settled(d, s, z), cs);
    NewcomerIsGrown(d, s, z, k);
    PlacedKeeps(p, cs);
    assert s'.pods[k] == if Unassigned(d, k, p) then Placed(p, cs) else p;
  }

  lemma SettledSurvivor(d: Deployment, s: State, z: Sizing, k: ObjectKey)
    requires Want(d) >= 0 && Sizes(d, Survivors(d, s.nodes, s.pods), z)
    requires k in Survivors(d, s.nodes, s.pods) && k in Settled(d, s, z)
    ensures Settled(d, s, z)[k] == s.pods[k]
  {
    if z.Grow? {
      FillIsFresh(d, Survivors(d, s.nodes, s.pods), z.ordinals);
      GrownAt(d, ClaimedNode(s.volumes, d.key.namespace, d.template.mounts), Swept(d, s.nodes, s.pods), z.ordinals, k);
    }
  }

  /** A pod that survived and was not surplus is as it was, except that one without a node may have been given one. */
  lemma SurvivorMeans(d: Deployment, s: State, s': State, k: ObjectKey)
    requires Pass(d, s, s')
    requires k in Mine(d, s'.pods) && k in Survivors(d, s.nodes, s.pods)
    ensures s.pods[k].spec.nodeName != "" ==> s'.pods[k] == s.pods[k]
    ensures s'.pods[k].labels == s.pods[k].labels && s'.pods[k].phase == s.pods[k].phase
    ensures s'.pods[k].spec == s.pods[k].spec.(nodeName := s'.pods[k].spec.nodeName)
  {
    var z, cs := PassVia0(d, s, s');
    SettledSurvivor(d, s, z, k);
    PlacedKeeps(s.pods[k], cs);
    assert s'.pods[k] == if Unassigned(d, k, s.pods[k]) then Placed(s.pods[k], cs) else s.pods[k];
  }

  // ---------------------------------------------------------------- where a waiting pod goes

  /** Node `n` is ready and not cordoned, and has what the containers ask for and their ports free next to `pods`. */
  ghost predicate CanTake(nodes: Nodes, pods: Pods, n: string, containers: seq<Container>)
  {
    && n in nodes && nodes[n].ready && !nodes[n].unschedulable
    && Asked(containers, Cpu) <= nodes[n].allocatable.cpu - Used(pods, n, Cpu)
    && Asked(containers, Memory) <= nodes[n].allocatable.memory - Used(pods, n, Memory)
    && (forall name :: Asked(containers, Accelerator(name)) > 0 ==>
          Asked(containers, Accelerator(name)) <= Count(nodes[n].allocatable.accelerators, name) - Used(pods, n, Accelerator(name)))
    && (forall port, j :: port in Ports(containers) && j in pods && pods[j].spec.nodeName == n ==>
          port !in Ports(pods[j].spec.containers))
  }

  /** Free CPU plus free memory. */
  ghost function Slack(nodes: Nodes, pods: Pods, n: string): int
    requires n in nodes
  {
    nodes[n].allocatable.cpu - Used(pods, n, Cpu) + (nodes[n].allocatable.memory - Used(pods, n, Memory))
  }

  lemma CandidateSlack(c: Candidate, nodes: Nodes, pods: Pods)
    requires Reflects(c, nodes, pods)
    ensures Score(c) == Slack(nodes, pods, c.name)
  {
    ReflectsAmount(c, nodes, pods, Cpu);
    ReflectsAmount(c, nodes, pods, Memory);
  }

  lemma FitsCanTake(c: Candidate, nodes: Nodes, pods: Pods, containers: seq<Container>)
    requires Reflects(c, nodes, pods) && Fits(c, RequestOf(containers))
    ensures CanTake(nodes, pods, c.name, containers)
  {
    var r := RequestOf(containers);
    forall dim ensures FitsDim(c, r, dim) && Amount(r.amounts, dim) == Asked(containers, dim) && Amount(c.used, dim) == Used(pods, c.name, dim) {
      RequestAmounts(containers, dim);
      ReflectsAmount(c, nodes, pods, dim);
    }
    assert FitsDim(c, r, Cpu) && FitsDim(c, r, Memory);
    forall name | Asked(containers, Accelerator(name)) > 0
      ensures Asked(containers, Accelerator(name)) <= Count(nodes[c.name].allocatable.accelerators, name) - Used(pods, c.name, Accelerator(name))
    {
      assert FitsDim(c, r, Accelerator(name));
    }
    forall port | port in Ports(containers) ensures !PortTaken(pods, c.name, port) {
      RequestAmounts(containers, Cpu);
      ReflectsPort(c, nodes, pods, port);
    }
  }

  lemma CanTakeFits(c: Candidate, nodes: Nodes, pods: Pods, containers: seq<Container>)
    requires Reflects(c, nodes, pods) && CanTake(nodes, pods, c.name, containers)
    ensures Fits(c, RequestOf(containers))
  {
    var r := RequestOf(containers);
    forall dim ensures FitsDim(c, r, dim) {
      RequestAmounts(containers, dim);
      ReflectsAmount(c, nodes, pods, dim);
      if dim.Accelerator? {
        assert Asked(containers, Accelerator(dim.name)) > 0 ==>
          Asked(containers, Accelerator(dim.name)) <= Count(nodes[c.name].allocatable.accelerators, dim.name) - Used(pods, c.name, Accelerator(dim.name));
      }
    }
    forall i | 0 <= i < |r.ports| ensures r.ports[i] !in c.usedPorts {
      RequestAmounts(containers, Cpu);
      var port := r.ports[i];
      assert port in Ports(containers);
      assert !PortTaken(pods, c.name, port);
      ReflectsPort(c, nodes, pods, port);
    }
  }

  /** The chosen node can take the pod and has the most slack of all that can. */
  lemma ChosenHasMostSlack(nodes: Nodes, pods: Pods, cs: seq<Candidate>, containers: seq<Container>, n: string)
    requires CandidatesOf(cs, nodes, pods) && Choice(cs, RequestOf(containers)) == Some(n)
    ensures CanTake(nodes, pods, n, containers)
    ensures forall m :: CanTake(nodes, pods, m, containers) ==> Slack(nodes, pods, m) <= Slack(nodes, pods, n)
  {
    var r := RequestOf(containers);
    var i :| Best(cs, r, i) && cs[i].name == n;
    FitsCanTake(cs[i], nodes, pods, containers);
    CandidateSlack(cs[i], nodes, pods);
    forall m | CanTake(nodes, pods, m, containers) ensures Slack(nodes, pods, m) <= Slack(nodes, pods, n) {
      var j := CandidateOf(nodes, pods, cs, m);
      CanTakeFits(cs[j], nodes, pods, containers);
      CandidateSlack(cs[j], nodes, pods);
    }
  }

  lemma CandidateOf(nodes: Nodes, pods: Pods, cs: seq<Candidate>, m: string) returns (j: nat)
    requires CandidatesOf(cs, nodes, pods) && m in nodes && nodes[m].ready && !nodes[m].unschedulable
    ensures j < |cs| && cs[j].name == m && Reflects(cs[j], nodes, pods)
  {
    assert m in EligibleNames(nodes);
    j :| 0 <= j < |cs| && cs[j].name == m;
  }

  /** Without a choice, every node that could take the pod is overcommitted in CPU and memory together; with non-negative
      requests there is none. */
  lemma NothingChosen(nodes: Nodes, pods: Pods, cs: seq<Candidate>, containers: seq<Container>, m: string)
    requires CandidatesOf(cs, nodes, pods) && Choice(cs, RequestOf(containers)) == None
    ensures CanTake(nodes, pods, m, containers) ==> Slack(nodes, pods, m) < 0
    ensures Asked(containers, Cpu) >= 0 && Asked(containers, Memory) >= 0 ==> !CanTake(nodes, pods, m, containers)
  {
    if CanTake(nodes, pods, m, containers) {
      var j := CandidateOf(nodes, pods, cs, m);
      CanTakeFits(cs[j], nodes, pods, containers);
      CandidateSlack(cs[j], nodes, pods);
      if Slack(nodes, pods, m) >= 0 {
        ViableHasBest(cs, RequestOf(containers));
      }
    }
  }

  /** The ports, separated by single spaces. */
  function Joined(ports: seq<int>): string
  {
    if ports == [] then "" else if |ports| == 1 then Decimal(ports[0]) else Decimal(ports[0]) + " " + Joined(ports[1..])
  }

  lemma Regroup(a: string, b: string, c: string)
    ensures a + " " + (b + " " + c) == a + " " + b + " " + c
  {
  }

  lemma {:induction false} JoinedLast(ports: seq<int>, port: int)
    requires ports != []
    ensures Joined(ports + [port]) == Joined(ports) + " " + Decimal(port)
  {
    var all := ports + [port];
    assert all[0] == ports[0];
    if |ports| == 1 {
      assert all[1..] == [port];
      assert Joined([port]) == Decimal(port);
    } else {
      assert all[1..] == ports[1..] + [port];
      JoinedLast(ports[1..], port);
      Regroup(Decimal(ports[0]), Joined(ports[1..]), Decimal(port));
    }
  }

  lemma {:induction false} PortListIsJoined(ports: seq<int>)
    ensures PortList(ports) == Joined(ports)
  {
    if |ports| > 1 {
      PortListIsJoined(ports[..|ports| - 1]);
      SplitLast(ports);
    }
  }

  lemma SplitLast(ports: seq<int>)
    requires |ports| > 1
    ensures Joined(ports) == Joined(ports[..|ports| - 1]) + " " + Decimal(ports[|ports| - 1])
  {
    var front, last := ports[..|ports| - 1], ports[|ports| - 1];
    assert front + [last] == ports;
    JoinedLast(front, last);
  }

  /** The reason a pod without a node is left with. */
  lemma WaitingText(ports: seq<int>)
    ensures ports == [] ==> PendingMessage(ports) == "waiting for a node with enough free CPU/memory"
    ensures ports != [] ==>
      PendingMessage(ports) == "waiting for a node with enough free CPU/memory and an available port for containerPort(s) [" + Joined(ports) + "]"
  {
    PortListIsJoined(ports);
  }

  /** An owned pod without a node at placement time: it is given the ready, uncordoned node with the most slack among those
      that can take it and loses its message, or, when no node can, it stays without one and says what it waits for. */
  lemma PlacementMeans(d: Deployment, s: State, z: Sizing, cs: seq<Candidate>, s': State, k: ObjectKey)
    requires PassVia(d, s, z, cs, s') && "" !in s.nodes
    requires k in Settled(d, s, z) && k in Mine(d, Settled(d, s, z)) && Settled(d, s, z)[k].spec.nodeName == ""
    requires Asked(Settled(d, s, z)[k].spec.containers, Cpu) >= 0 && Asked(Settled(d, s, z)[k].spec.containers, Memory) >= 0
    ensures k in s'.pods
    ensures var pods := Settled(d, s, z); var containers := pods[k].spec.containers; var n := s'.pods[k].spec.nodeName;
      if exists m :: CanTake(s.nodes, pods, m, containers)
      then
        && CanTake(s.nodes, pods, n, containers) && s'.pods[k].message == ""
        && forall m :: CanTake(s.nodes, pods, m, containers) ==> Slack(s.nodes, pods, m) <= Slack(s.nodes, pods, n)
      else
        && n == ""
        && s'.pods[k].message ==
             if Ports(containers) == [] then "waiting for a node with enough free CPU/memory"
             else "waiting for a node with enough free CPU/memory and an available port for containerPort(s) ["
                  + Joined(Ports(containers)) + "]"
  {
    var pods := Settled(d, s, z);
    var containers := pods[k].spec.containers;
    var r := RequestOf(containers);
    assert k in Waiting(d, pods);
    assert s'.pods[k] == Placed(pods[k], cs);
    RequestAmounts(containers, Cpu);
    WaitingText(r.ports);
    match Choice(cs, r)
    case Some(n) =>
      ChosenHasMostSlack(s.nodes, pods, cs, containers, n);
    case None =>
      forall m ensures !CanTake(s.nodes, pods, m, containers) {
        NothingChosen(s.nodes, pods, cs, containers, m);
      }
  }

  // ---------------------------------------------------------------- volumes and status

  /** Without mounts or without an assigned pod no volume changes. Otherwise one assigned pod's node is written, with the
      owner label, to exactly the mounted volumes of the namespace that had none. */
  lemma ClaimsMean(d: Deployment, s: State, s': State)
    requires Pass(d, s, s')
    ensures d.template.mounts == [] || (forall k :: k in Mine(d, s'.pods) ==> s'.pods[k].spec.nodeName == "") ==> s'.volumes == s.volumes
    ensures d.template.mounts != [] && (exists k :: k in Mine(d, s'.pods) && s'.pods[k].spec.nodeName != "") ==>
      exists k :: k in Mine(d, s'.pods) && s'.pods[k].spec.nodeName != "" && ClaimedFor(d, s, s', s'.pods[k].spec.nodeName)
  {
    var z, cs := PassVia0(d, s, s');
    ClaimsOnFields(d, s'.pods, s.volumes, s'.volumes);
    if d.template.mounts != [] && exists k :: k in Mine(d, s'.pods) && s'.pods[k].spec.nodeName != "" {
      var k :| k in Mine(d, s'.pods) && s'.pods[k].spec.nodeName != "" && s'.volumes == Stamped(d, s.volumes, s'.pods[k].spec.nodeName);
      StampedOnFields(d, s, s', s'.pods[k].spec.nodeName);
    }
  }

  ghost predicate ClaimedFor(d: Deployment, s: State, s': State, node: string)
  {
    && s'.volumes.Keys == s.volumes.Keys
    && (forall v :: v in s.volumes ==>
          s'.volumes[v] ==
            if v.namespace == d.key.namespace && v.name in d.template.mounts && s.volumes[v].nodeName == ""
            then Volume(node, s.volumes[v].labels["nimbuscore.io/owner-deployment" := d.key.name])
            else s.volumes[v])
  }

  lemma StampedOnFields(d: Deployment, s: State, s': State, node: string)
    requires s'.volumes == Stamped(d, s.volumes, node)
    ensures ClaimedFor(d, s, s', node)
  {
  }

  lemma ClaimsOnFields(d: Deployment, pods: Pods, before: Volumes, after: Volumes)
    requires Claims(d, pods, before, after)
    ensures d.template.mounts == [] || (forall k :: k in Mine(d, pods) ==> pods[k].spec.nodeName == "") ==> after == before
    ensures d.template.mounts != [] && (exists k :: k in Mine(d, pods) && pods[k].spec.nodeName != "") ==>
      exists k :: k in Mine(d, pods) && pods[k].spec.nodeName != "" && after == Stamped(d, before, pods[k].spec.nodeName)
  {
    forall k | k in Mine(d, pods) ensures k in Waiting(d, pods) <==> pods[k].spec.nodeName == "" {
    }
    if forall k :: k in Mine(d, pods) ==> pods[k].spec.nodeName == "" {
      assert Mine(d, pods) == Waiting(d, pods);
    }
    if k :| k in Mine(d, pods) && pods[k].spec.nodeName != "" {
      assert k !in Waiting(d, pods);
    }
  }

  /** The stored deployment reports how many pods are owned and how many of them run; nothing else in the store of
      deployments changes, and no node does. */
  lemma StatusMeans(d: Deployment, s: State, s': State)
    requires Pass(d, s, s')
    ensures s'.nodes == s.nodes && s'.deployments.Keys == s.deployments.Keys
    ensures forall e :: e in s.deployments && e != d.key ==> s'.deployments[e] == s.deployments[e]
    ensures d.key in s.deployments ==>
      && s'.deployments[d.key] == s.deployments[d.key].(status := s'.deployments[d.key].status)
      && s'.deployments[d.key].status.replicas == |Mine(d, s'.pods)|
      && s'.deployments[d.key].status.readyReplicas == |set k | k in Mine(d, s'.pods) && s'.pods[k].phase == Running|
  {
    var z, cs := PassVia0(d, s, s');
    assert RunningPods(d, s'.pods) == set k | k in Mine(d, s'.pods) && s'.pods[k].phase == Running;
  }
}
