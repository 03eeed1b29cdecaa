/** A reconciled deployment is a fixpoint: with the nodes unchanged, the next pass writes nothing new. */
module Fixpoint {
  import opened Names
  import opened Cluster
  import opened Scheduler
  import opened Sums
  import opened Usage
  import opened Reconcile
  import opened Convergence

  // ---------------------------------------------------------------- a pod that found no node finds none later

  /** A candidate at least as busy is no easier to fit. */
  lemma BusierFitsLess(c: Candidate, busier: Candidate, r: Request)
    requires c.capacity == busier.capacity
    requires forall d :: Amount(c.used, d) <= Amount(busier.used, d)
    requires c.usedPorts <= busier.usedPorts
    ensures Viable(busier, r) ==> Viable(c, r)
  {
    if Viable(busier, r) {
      forall d: Dim ensures FitsDim(c, r, d) {
        assert FitsDim(busier, r, d);
      }
      assert Free(c, Cpu) >= Free(busier, Cpu) && Free(c, Memory) >= Free(busier, Memory);
    }
  }

  lemma ReflectsAmount(c: Candidate, nodes: Nodes, pods: Pods, d: Dim)
    requires Reflects(c, nodes, pods)
    ensures Amount(c.used, d) == Used(pods, c.name, d)
  {
    assert Amount(NodeUsage(c.used, c.usedPorts).amounts, d) == Used(pods, c.name, d);
  }

  lemma ReflectsPort(c: Candidate, nodes: Nodes, pods: Pods, port: int)
    requires Reflects(c, nodes, pods)
    ensures port in c.usedPorts <==> PortTaken(pods, c.name, port)
  {
    assert port in NodeUsage(c.used, c.usedPorts).ports <==> PortTaken(pods, c.name, port);
  }

  lemma NoneStaysNone(before: seq<Candidate>, after: seq<Candidate>, nodes: Nodes, p: Pods, q: Pods, r: Request)
    requires CandidatesOf(before, nodes, p) && CandidatesOf(after, nodes, q)
    requires forall n, d :: n in nodes ==> Used(p, n, d) <= Used(q, n, d)
    requires forall n, port :: n in nodes && PortTaken(p, n, port) ==> PortTaken(q, n, port)
    requires Choice(before, r) == None
    ensures Choice(after, r) == None
  {
    forall i | 0 <= i < |after| ensures !Viable(after[i], r) {
      if Viable(after[i], r) {
        var n := after[i].name;
        assert Reflects(after[i], nodes, q) && n in EligibleNames(nodes);
        var j :| 0 <= j < |before| && before[j].name == n;
        assert Reflects(before[j], nodes, p);
        forall d ensures Amount(before[j].used, d) <= Amount(after[i].used, d) {
          ReflectsAmount(before[j], nodes, p, d);
          ReflectsAmount(after[i], nodes, q, d);
        }
        forall port | port in before[j].usedPorts ensures port in after[i].usedPorts {
          ReflectsPort(before[j], nodes, p, port);
          ReflectsPort(after[i], nodes, q, port);
        }
        BusierFitsLess(before[j], after[i], r);
        ViableHasBest(before, r);
      }
    }
    ChoiceNone(after, r);
  }

  /** Placing pods with non-negative requests never lowers a node's usage. */
  lemma SchedulingAddsUsage(d: Deployment, pods: Pods, cs: seq<Candidate>, n: string, dim: Dim)
    requires n != ""
    requires forall k :: k in Waiting(d, pods) ==> NonNegative(pods[k].spec.containers)
    ensures Used(pods, n, dim) <= Used(Scheduled(d, pods, cs), n, dim)
  {
    var after := Scheduled(d, pods, cs);
    forall k | k in pods ensures Weight(pods[k], n, dim) <= Weight(after[k], n, dim) {
      if Unassigned(d, k, pods[k]) {
        assert k in Waiting(d, pods);
        AskedNonNegative(pods[k].spec.containers, dim);
      }
    }
    TotalMonotone(Load(pods, n, dim), Load(after, n, dim));
  }

  lemma SchedulingKeepsPorts(d: Deployment, pods: Pods, cs: seq<Candidate>, n: string, port: int)
    requires n != "" && PortTaken(pods, n, port)
    ensures PortTaken(Scheduled(d, pods, cs), n, port)
  {
    var k :| k in pods && pods[k].spec.nodeName == n && port in Ports(pods[k].spec.containers);
    assert Scheduled(d, pods, cs)[k] == pods[k];
  }

  /** Scheduling the outcome of a scheduling round again changes nothing. */
  lemma ScheduledTwice(d: Deployment, nodes: Nodes, pods: Pods, cs: seq<Candidate>, ds: seq<Candidate>)
    requires "" !in nodes
    requires Waiting(d, pods) != {} ==> CandidatesOf(cs, nodes, pods)
    requires Waiting(d, Scheduled(d, pods, cs)) != {} ==> CandidatesOf(ds, nodes, Scheduled(d, pods, cs))
    requires forall k :: k in Waiting(d, pods) ==> NonNegative(pods[k].spec.containers)
    ensures Scheduled(d, Scheduled(d, pods, cs), ds) == Scheduled(d, pods, cs)
  {
    var after := Scheduled(d, pods, cs);
    forall k | k in after && Unassigned(d, k, after[k]) ensures Placed(after[k], ds) == after[k] {
      assert k in Waiting(d, after) && k in Waiting(d, pods);
      var r := RequestOf(pods[k].spec.containers);
      ChosenIsEligible(cs, nodes, pods, r);
      assert Choice(cs, r) == None;
      forall n, dim | n in nodes ensures Used(pods, n, dim) <= Used(after, n, dim) {
        SchedulingAddsUsage(d, pods, cs, n, dim);
      }
      forall n, port | n in nodes && PortTaken(pods, n, port) ensures PortTaken(after, n, port) {
        SchedulingKeepsPorts(d, pods, cs, n, port);
      }
      NoneStaysNone(cs, ds, nodes, pods, after, r);
    }
  }

  // ---------------------------------------------------------------- the settled pods do not change

  /** A state all of whose owned pods are alive loses none of them to the eviction sweep. */
  lemma SweepOfLive(d: Deployment, nodes: Nodes, pods: Pods)
    requires forall k :: k in Mine(d, pods) ==> Alive(nodes, pods[k])
    ensures Swept(d, nodes, pods) == pods
    ensures Survivors(d, nodes, pods) == Mine(d, pods)
  {
    forall k | k in pods ensures Kept(d, nodes, k, pods[k]) {
      assert IsOwned(d, k, pods[k]) ==> k in Mine(d, pods);
    }
  }

  /** With mounts there is at most one pod, so an unmet want means none and therefore no claim. */
  lemma UnmetMakesNoClaim(d: Deployment, s: State, s': State)
    requires Pass(d, s, s')
    requires |Mine(d, s'.pods)| < Want(d)
    ensures ClaimedNode(s'.volumes, d.key.namespace, d.template.mounts) == ClaimedNode(s.volumes, d.key.namespace, d.template.mounts)
  {
    if d.template.mounts != [] {
      assert Mine(d, s'.pods) == {};
      assert Waiting(d, s'.pods) == {};
    }
  }

  /** When the pass could not keep what it created, those keys are empty afterwards. */
  lemma UnmetLeavesGaps(d: Deployment, s: State, z: Sizing, cs: seq<Candidate>, s': State)
    requires PassVia(d, s, z, cs, s')
    requires |Mine(d, s'.pods)| < Want(d)
    ensures z.Grow? && Mine(d, s'.pods) == Survivors(d, s.nodes, s.pods)
    ensures NewKeys(d, z.ordinals) !! s'.pods.Keys
  {
    SettledCount(d, s, z);
    ScheduledKeepsMine(d, Settled(d, s, z), cs);
    var claimed := ClaimedNode(s.volumes, d.key.namespace, d.template.mounts);
    var base := Swept(d, s.nodes, s.pods);
    forall k | k in NewKeys(d, z.ordinals) ensures k !in Settled(d, s, z) {
      GrownAt(d, claimed, base, z.ordinals, k);
    }
  }

  /** The next pass, if it must create again, evicts exactly what it creates. */
  lemma RegrowLeavesNothing(d: Deployment, s: State, ordinals: set<nat>)
    requires forall k :: k in Mine(d, s.pods) ==> Alive(s.nodes, s.pods[k])
    requires !NewNodeAlive(d, s)
    requires NewKeys(d, ordinals) !! s.pods.Keys
    ensures Settled(d, s, Grow(ordinals)) == s.pods
  {
    SweepOfLive(d, s.nodes, s.pods);
    var claimed := ClaimedNode(s.volumes, d.key.namespace, d.template.mounts);
    var grown := Grown(d, claimed, s.pods, ordinals);
    forall k ensures k in Swept(d, s.nodes, grown) <==> k in s.pods {
      GrownAt(d, claimed, s.pods, ordinals, k);
      assert k in s.pods ==> Kept(d, s.nodes, k, s.pods[k]) by {
        assert k in s.pods && IsOwned(d, k, s.pods[k]) ==> k in Mine(d, s.pods);
      }
    }
    forall k | k in s.pods ensures grown[k] == s.pods[k] {
      GrownAt(d, claimed, s.pods, ordinals, k);
    }
  }

  lemma SettledAgain(d: Deployment, s: State, s': State, z: Sizing)
    requires Pass(d, s, s')
    requires Sizes(d, Survivors(d, s'.nodes, s'.pods), z)
    ensures Settled(d, s', z) == s'.pods
    ensures |Mine(d, s'.pods)| == Want(d) ==> z == Keep
  {
    Converges(d, s, s');
    SweepOfLive(d, s'.nodes, s'.pods);
    if |Mine(d, s'.pods)| == Want(d) {
      SurvivorsOfKept(d, s');
    } else {
      var y, cs :| PassVia(d, s, y, cs, s');
      SettledCount(d, s, y);
      UnmetMakesNoClaim(d, s, s');
      UnmetLeavesGaps(d, s, y, cs, s');
      SmallestFreeUnique(y.ordinals, z.ordinals, Occupied(d, Mine(d, s'.pods)), Want(d) - |Mine(d, s'.pods)|);
      RegrowLeavesNothing(d, s', z.ordinals);
    }
  }

  // ---------------------------------------------------------------- claims and status

  lemma ClaimsTwice(d: Deployment, pods: Pods, a: Volumes, b: Volumes, c: Volumes)
    requires Claims(d, pods, a, b) && Claims(d, pods, b, c)
    ensures c == b
  {
    if d.template.mounts != [] && Mine(d, pods) != Waiting(d, pods) {
      var k :| k in Mine(d, pods) && k !in Waiting(d, pods) && b == Stamped(d, a, pods[k].spec.nodeName);
      var j :| j in Mine(d, pods) && j !in Waiting(d, pods) && c == Stamped(d, b, pods[j].spec.nodeName);
      assert pods[k].spec.nodeName != "";
      assert forall v :: v in b && Mounted(d, v) ==> b[v].nodeName != "";
    }
  }

  lemma ReportedTwice(d: Deployment, pods: Pods, deployments: Deployments)
    ensures Reported(d, pods, Reported(d, pods, deployments)) == Reported(d, pods, deployments)
  {
  }

  lemma WaitingNonNegative(d: Deployment, pods: Pods, cs: seq<Candidate>)
    requires forall k :: k in Mine(d, Scheduled(d, pods, cs)) ==> NonNegative(Scheduled(d, pods, cs)[k].spec.containers)
    ensures forall k :: k in Waiting(d, pods) ==> NonNegative(pods[k].spec.containers)
  {
    ScheduledKeepsMine(d, pods, cs);
    forall k | k in Waiting(d, pods) ensures NonNegative(pods[k].spec.containers) {
      assert k in Mine(d, pods);
      assert Scheduled(d, pods, cs)[k].spec.containers == pods[k].spec.containers;
    }
  }

  lemma PodsAgain(d: Deployment, s: State, y: Sizing, cs: seq<Candidate>, s': State, z: Sizing, ds: seq<Candidate>, s'': State)
    requires "" !in s.nodes
    requires PassVia(d, s, y, cs, s') && PassVia(d, s', z, ds, s'')
    requires forall k :: k in Mine(d, s'.pods) ==> NonNegative(s'.pods[k].spec.containers)
    ensures s''.pods == s'.pods
  {
    var settled := Settled(d, s, y);
    SettledAgain(d, s, s', z);
    ScheduledKeepsMine(d, settled, cs);
    WaitingNonNegative(d, settled, cs);
    ScheduledTwice(d, s.nodes, settled, cs, ds);
  }

  /** Fixpoint: for every pod state and every listing order, a second pass with the nodes unchanged leaves the whole
      store as it found it; and if the first pass met the wanted count, the second creates and deletes no pod on the way. */
  lemma Idempotent(d: Deployment, s: State, s': State, s'': State)
    requires "" !in s.nodes
    requires Pass(d, s, s') && Pass(d, s', s'')
    requires forall k :: k in Mine(d, s'.pods) ==> NonNegative(s'.pods[k].spec.containers)
    ensures s'' == s'
    ensures |Mine(d, s'.pods)| == Want(d) ==> forall z, cs :: PassVia(d, s', z, cs, s'') ==> z == Keep
  {
    var y, cs :| PassVia(d, s, y, cs, s');
    var z, ds :| PassVia(d, s', z, ds, s'');
    PodsAgain(d, s, y, cs, s', z, ds, s'');
    ClaimsTwice(d, s'.pods, s.volumes, s'.volumes, s''.volumes);
    ReportedTwice(d, s'.pods, s.deployments);
    forall x, xs | PassVia(d, s', x, xs, s'') && |Mine(d, s'.pods)| == Want(d) ensures x == Keep {
      SettledAgain(d, s, s', x);
    }
  }
}
