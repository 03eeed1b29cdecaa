/** Placement against capacity: what scheduling does to node usage. */
module Placement {
  import opened Names
  import opened Cluster
  import opened Scheduler
  import opened Sums
  import opened Usage
  import opened Reconcile
  import opened Convergence
  import opened Fixpoint

  ghost predicate Within(nodes: Nodes, pods: Pods, n: string)
  {
    n in nodes ==> forall d :: Used(pods, n, d) <= Amount(nodes[n].allocatable, d)
  }

  /** No node is overcommitted in any dimension. */
  ghost predicate Committed(nodes: Nodes, pods: Pods)
  {
    forall n :: n in nodes ==> Within(nodes, pods, n)
  }

  ghost predicate Clash(pods: Pods, j: ObjectKey, k: ObjectKey)
  {
    && j in pods && k in pods && j != k && pods[j].spec.nodeName == pods[k].spec.nodeName != ""
    && exists port :: port in Ports(pods[j].spec.containers) && port in Ports(pods[k].spec.containers)
  }

  ghost predicate ClashFree(pods: Pods)
  {
    forall j, k :: !Clash(pods, j, k)
  }

  ghost predicate Sound(nodes: Nodes, pods: Pods)
  {
    Committed(nodes, pods) && ClashFree(pods)
  }

  /** The chosen node has room for the request, read off the stored objects. */
  lemma ChosenFits(nodes: Nodes, pods: Pods, cs: seq<Candidate>, containers: seq<Container>, n: string)
    requires CandidatesOf(cs, nodes, pods)
    requires Choice(cs, RequestOf(containers)) == Some(n)
    ensures n in nodes && Eligible(nodes[n])
    ensures forall d :: Asked(containers, d) > 0 ==> Used(pods, n, d) + Asked(containers, d) <= Amount(nodes[n].allocatable, d)
    ensures forall port :: port in Ports(containers) ==> !PortTaken(pods, n, port)
  {
    var r := RequestOf(containers);
    var i :| Best(cs, r, i) && cs[i].name == n;
    assert Reflects(cs[i], nodes, pods) && Fits(cs[i], r);
    forall d | Asked(containers, d) > 0
      ensures Used(pods, n, d) + Asked(containers, d) <= Amount(nodes[n].allocatable, d)
    {
      assert FitsDim(cs[i], r, d);
      RequestAmounts(containers, d);
      ReflectsAmount(cs[i], nodes, pods, d);
    }
    forall port | port in Ports(containers) ensures !PortTaken(pods, n, port) {
      RequestAmounts(containers, Cpu);
      ReflectsPort(cs[i], nodes, pods, port);
    }
  }

  // ---------------------------------------------------------------- one scheduling round

  /** The waiting pod that the candidates send to `n`. */
  ghost predicate SentTo(d: Deployment, pods: Pods, cs: seq<Candidate>, k: ObjectKey, n: string)
  {
    k in pods && Unassigned(d, k, pods[k]) && Choice(cs, RequestOf(pods[k].spec.containers)) == Some(n)
  }

  /** What each waiting pod will add to node `n`. */
  ghost function Arriving(d: Deployment, pods: Pods, cs: seq<Candidate>, n: string, dim: Dim): map<ObjectKey, int>
  {
    map k | k in pods :: if SentTo(d, pods, cs, k, n) then Asked(pods[k].spec.containers, dim) else 0
  }

  /** Scheduling adds to every node exactly the requests of the pods sent there. */
  lemma RoundUsage(d: Deployment, pods: Pods, cs: seq<Candidate>, n: string, dim: Dim)
    requires n != ""
    ensures Used(Scheduled(d, pods, cs), n, dim) == Used(pods, n, dim) + Total(Arriving(d, pods, cs, n, dim))
  {
    var after, delta := Scheduled(d, pods, cs), Arriving(d, pods, cs, n, dim);
    forall k | k in pods ensures Load(after, n, dim)[k] == Load(pods, n, dim)[k] + delta[k] {
      ScheduledWeight(d, pods, cs, n, dim, k);
    }
    TotalAdd(Load(pods, n, dim), delta, Load(after, n, dim));
  }

  lemma ScheduledWeight(d: Deployment, pods: Pods, cs: seq<Candidate>, n: string, dim: Dim, k: ObjectKey)
    requires n != "" && k in pods
    ensures Weight(Scheduled(d, pods, cs)[k], n, dim) == Weight(pods[k], n, dim) + Arriving(d, pods, cs, n, dim)[k]
  {
  }

  /** Two waiting pods that share a port and are sent to the same node. */
  ghost predicate Meet(d: Deployment, pods: Pods, cs: seq<Candidate>, j: ObjectKey, k: ObjectKey)
  {
    && j != k && j in pods && k in pods && (exists n :: SentTo(d, pods, cs, j, n) && SentTo(d, pods, cs, k, n))
    && exists port :: port in Ports(pods[j].spec.containers) && port in Ports(pods[k].spec.containers)
  }

  /** Every node has room for all the pods sent to it together, and no two of them share a port. */
  ghost predicate RoundFits(d: Deployment, nodes: Nodes, pods: Pods, cs: seq<Candidate>)
  {
    && (forall n, dim :: n in nodes ==> Used(pods, n, dim) + Total(Arriving(d, pods, cs, n, dim)) <= Amount(nodes[n].allocatable, dim))
    && (forall j, k :: !Meet(d, pods, cs, j, k))
  }

  lemma RoundCommitted(d: Deployment, nodes: Nodes, pods: Pods, cs: seq<Candidate>)
    requires "" !in nodes
    ensures Committed(nodes, Scheduled(d, pods, cs)) <==>
      forall n, dim :: n in nodes ==> Used(pods, n, dim) + Total(Arriving(d, pods, cs, n, dim)) <= Amount(nodes[n].allocatable, dim)
  {
    forall n, dim | n in nodes
      ensures Used(Scheduled(d, pods, cs), n, dim) == Used(pods, n, dim) + Total(Arriving(d, pods, cs, n, dim))
    {
      RoundUsage(d, pods, cs, n, dim);
    }
    if Committed(nodes, Scheduled(d, pods, cs)) {
      forall n, dim | n in nodes ensures Used(Scheduled(d, pods, cs), n, dim) <= Amount(nodes[n].allocatable, dim) {
        assert Within(nodes, Scheduled(d, pods, cs), n);
      }
    }
  }

  /** After a round a pod is on the node it was on, or on the one it was sent to. */
  lemma ScheduledNode(d: Deployment, pods: Pods, cs: seq<Candidate>, k: ObjectKey)
    requires k in pods
    ensures k in Scheduled(d, pods, cs) && Scheduled(d, pods, cs)[k].spec.containers == pods[k].spec.containers
    ensures Scheduled(d, pods, cs)[k].spec.nodeName != "" ==>
      SentTo(d, pods, cs, k, Scheduled(d, pods, cs)[k].spec.nodeName)
      || Scheduled(d, pods, cs)[k].spec.nodeName == pods[k].spec.nodeName
    ensures forall n :: SentTo(d, pods, cs, k, n) ==> Scheduled(d, pods, cs)[k].spec.nodeName == n
    ensures pods[k].spec.nodeName != "" ==> Scheduled(d, pods, cs)[k].spec.nodeName == pods[k].spec.nodeName
  {
  }

  /** A pod sent to a node shares no port with a pod already there. */
  lemma SentMeetsNone(d: Deployment, nodes: Nodes, pods: Pods, cs: seq<Candidate>, j: ObjectKey, k: ObjectKey, n: string, port: int)
    requires CandidatesOf(cs, nodes, pods) && SentTo(d, pods, cs, j, n)
    requires k in pods && pods[k].spec.nodeName == n && port in Ports(pods[k].spec.containers)
    ensures port !in Ports(pods[j].spec.containers)
  {
    ChosenFits(nodes, pods, cs, pods[j].spec.containers, n);
    assert PortTaken(pods, n, port);
  }

  lemma ClashIsMeet(d: Deployment, nodes: Nodes, pods: Pods, cs: seq<Candidate>, j: ObjectKey, k: ObjectKey)
    requires "" !in nodes && CandidatesOf(cs, nodes, pods) && !Clash(pods, j, k)
    requires Clash(Scheduled(d, pods, cs), j, k)
    ensures Meet(d, pods, cs, j, k)
  {
    ScheduledNode(d, pods, cs, j);
    ScheduledNode(d, pods, cs, k);
    var n := Scheduled(d, pods, cs)[j].spec.nodeName;
    var port :| port in Ports(pods[j].spec.containers) && port in Ports(pods[k].spec.containers);
    if !SentTo(d, pods, cs, j, n) && SentTo(d, pods, cs, k, n) {
      SentMeetsNone(d, nodes, pods, cs, k, j, n, port);
    } else if SentTo(d, pods, cs, j, n) && !SentTo(d, pods, cs, k, n) {
      SentMeetsNone(d, nodes, pods, cs, j, k, n, port);
    }
  }

  lemma MeetIsClash(d: Deployment, nodes: Nodes, pods: Pods, cs: seq<Candidate>, j: ObjectKey, k: ObjectKey)
    requires "" !in nodes && CandidatesOf(cs, nodes, pods) && Meet(d, pods, cs, j, k)
    ensures Clash(Scheduled(d, pods, cs), j, k)
  {
    var n :| SentTo(d, pods, cs, j, n) && SentTo(d, pods, cs, k, n);
    ChosenIsEligible(cs, nodes, pods, RequestOf(pods[j].spec.containers));
    ScheduledNode(d, pods, cs, j);
    ScheduledNode(d, pods, cs, k);
  }

  lemma RoundClashFree(d: Deployment, nodes: Nodes, pods: Pods, cs: seq<Candidate>)
    requires "" !in nodes && CandidatesOf(cs, nodes, pods) && ClashFree(pods)
    ensures ClashFree(Scheduled(d, pods, cs)) <==> forall j, k :: !Meet(d, pods, cs, j, k)
  {
    if j, k :| Meet(d, pods, cs, j, k) {
      MeetIsClash(d, nodes, pods, cs, j, k);
    }
    if j, k :| Clash(Scheduled(d, pods, cs), j, k) {
      ClashIsMeet(d, nodes, pods, cs, j, k);
    }
  }

  lemma NothingToPlace(d: Deployment, nodes: Nodes, pods: Pods, cs: seq<Candidate>)
    requires Waiting(d, pods) == {} && Sound(nodes, pods)
    ensures RoundFits(d, nodes, pods, cs) && Sound(nodes, Scheduled(d, pods, cs))
  {
    NothingWaiting(d, pods, cs);
    forall k, n ensures !SentTo(d, pods, cs, k, n) {
      assert SentTo(d, pods, cs, k, n) ==> k in Waiting(d, pods);
    }
    forall n, dim | n in nodes
      ensures Used(pods, n, dim) + Total(Arriving(d, pods, cs, n, dim)) <= Amount(nodes[n].allocatable, dim)
    {
      assert Within(nodes, pods, n);
      TotalZero(Arriving(d, pods, cs, n, dim));
    }
  }

  /** One scheduling round, whatever pods are waiting, keeps a sound cluster sound if and only if every node has room for
      all the pods sent to it together and no two of those share a port. */
  lemma RoundIsSound(d: Deployment, nodes: Nodes, pods: Pods, cs: seq<Candidate>)
    requires "" !in nodes && (Waiting(d, pods) != {} ==> CandidatesOf(cs, nodes, pods))
    requires Sound(nodes, pods)
    ensures Sound(nodes, Scheduled(d, pods, cs)) <==> RoundFits(d, nodes, pods, cs)
  {
    if Waiting(d, pods) == {} {
      NothingToPlace(d, nodes, pods, cs);
    } else {
      RoundCommitted(d, nodes, pods, cs);
      RoundClashFree(d, nodes, pods, cs);
    }
  }

  // ---------------------------------------------------------------- identical pods in one round

  /** Every waiting pod asks for the same thing, as replicas of one template do. */
  ghost predicate Identical(d: Deployment, pods: Pods, containers: seq<Container>)
  {
    forall k :: k in Waiting(d, pods) ==> pods[k].spec.containers == containers
  }

  lemma {:induction false} TotalOnSet<K>(w: map<K, int>, on: set<K>, a: int)
    requires on <= w.Keys
    requires forall k :: k in w ==> w[k] == if k in on then a else 0
    ensures Total(w) == |on| * a
    decreases |on|
  {
    if on == {} {
      TotalZero(w);
    } else {
      var k :| k in on;
      TotalOnSet(w[k := 0], on - {k}, a);
      TotalUpdate(w, k, 0);
      assert |on| == |on - {k}| + 1;
      assert (|on| - 1) * a + a == |on| * a;
    }
  }

  /** Room for a number of identical pods on one node. */
  ghost predicate RoomForAll(nodes: Nodes, pods: Pods, n: string, count: nat, containers: seq<Container>)
  {
    n in nodes && forall d :: Used(pods, n, d) + count * Asked(containers, d) <= Amount(nodes[n].allocatable, d)
  }

  lemma IdenticalSent(d: Deployment, pods: Pods, cs: seq<Candidate>, containers: seq<Container>, n: string, k: ObjectKey, m: string)
    requires Identical(d, pods, containers) && Choice(cs, RequestOf(containers)) == Some(n)
    ensures SentTo(d, pods, cs, k, m) <==> k in Waiting(d, pods) && m == n
  {
    assert k in pods && Unassigned(d, k, pods[k]) <==> k in Waiting(d, pods);
  }

  /** The candidates are computed once, so a whole round of identical pods lands on one node. */
  lemma IdenticalArriving(d: Deployment, pods: Pods, cs: seq<Candidate>, containers: seq<Container>, n: string, m: string, dim: Dim)
    requires Identical(d, pods, containers) && Choice(cs, RequestOf(containers)) == Some(n)
    ensures Total(Arriving(d, pods, cs, m, dim)) == if m == n then |Waiting(d, pods)| * Asked(containers, dim) else 0
  {
    var arriving := Arriving(d, pods, cs, m, dim);
    forall k | k in pods
      ensures arriving[k] == if m == n && k in Waiting(d, pods) then Asked(containers, dim) else 0
    {
      IdenticalSent(d, pods, cs, containers, n, k, m);
    }
    if m == n {
      TotalOnSet(arriving, Waiting(d, pods), Asked(containers, dim));
    } else {
      TotalZero(arriving);
    }
  }

  lemma IdenticalRoom(d: Deployment, nodes: Nodes, pods: Pods, cs: seq<Candidate>, containers: seq<Container>, n: string)
    requires Identical(d, pods, containers) && Choice(cs, RequestOf(containers)) == Some(n)
    requires n in nodes && Committed(nodes, pods)
    ensures RoomForAll(nodes, pods, n, |Waiting(d, pods)|, containers) <==>
      forall m, dim :: m in nodes ==> Used(pods, m, dim) + Total(Arriving(d, pods, cs, m, dim)) <= Amount(nodes[m].allocatable, dim)
  {
    forall m, dim | m in nodes
      ensures Total(Arriving(d, pods, cs, m, dim)) == if m == n then |Waiting(d, pods)| * Asked(containers, dim) else 0
      ensures Used(pods, m, dim) <= Amount(nodes[m].allocatable, dim)
    {
      assert Within(nodes, pods, m);
      IdenticalArriving(d, pods, cs, containers, n, m, dim);
    }
  }

  lemma IdenticalMeet(d: Deployment, pods: Pods, cs: seq<Candidate>, containers: seq<Container>, n: string)
    requires Identical(d, pods, containers) && Choice(cs, RequestOf(containers)) == Some(n)
    ensures (forall j, k :: !Meet(d, pods, cs, j, k)) <==> |Waiting(d, pods)| <= 1 || Ports(containers) == []
  {
    var waiting := Waiting(d, pods);
    if j, k :| Meet(d, pods, cs, j, k) {
      var m :| SentTo(d, pods, cs, j, m) && SentTo(d, pods, cs, k, m);
      IdenticalSent(d, pods, cs, containers, n, j, m);
      IdenticalSent(d, pods, cs, containers, n, k, m);
      TwoElements(waiting, j, k);
    }
    if |waiting| > 1 && Ports(containers) != [] {
      var j :| j in waiting;
      assert |waiting - {j}| == |waiting| - 1;
      var k :| k in waiting - {j};
      IdenticalSent(d, pods, cs, containers, n, j, n);
      IdenticalSent(d, pods, cs, containers, n, k, n);
      var port := Ports(containers)[0];
      assert port in Ports(pods[j].spec.containers) && port in Ports(pods[k].spec.containers);
      assert Meet(d, pods, cs, j, k);
    }
  }

  /** One scheduling round of identical pods keeps every node within its allocatable amounts and free of port clashes if
      and only if the chosen node has room for all of them together, and there is one pod or there are no ports. */
  lemma BurstIsSound(d: Deployment, nodes: Nodes, pods: Pods, cs: seq<Candidate>, containers: seq<Container>, n: string)
    requires "" !in nodes && CandidatesOf(cs, nodes, pods)
    requires Identical(d, pods, containers) && Choice(cs, RequestOf(containers)) == Some(n)
    requires Sound(nodes, pods)
    ensures Sound(nodes, Scheduled(d, pods, cs)) <==> RoundFits(d, nodes, pods, cs)
    ensures RoundFits(d, nodes, pods, cs) <==>
      && RoomForAll(nodes, pods, n, |Waiting(d, pods)|, containers)
      && (|Waiting(d, pods)| <= 1 || Ports(containers) == [])
  {
    ChosenIsEligible(cs, nodes, pods, RequestOf(containers));
    RoundIsSound(d, nodes, pods, cs);
    IdenticalRoom(d, nodes, pods, cs, containers, n);
    IdenticalMeet(d, pods, cs, containers, n);
  }

  /** A round that places a single pod never overcommits a node and never reuses a port. */
  lemma SinglePlacementIsSound(d: Deployment, nodes: Nodes, pods: Pods, cs: seq<Candidate>, k: ObjectKey)
    requires "" !in nodes && CandidatesOf(cs, nodes, pods)
    requires Waiting(d, pods) == {k} && NonNegative(pods[k].spec.containers)
    requires Sound(nodes, pods)
    ensures Sound(nodes, Scheduled(d, pods, cs))
  {
    var containers := pods[k].spec.containers;
    match Choice(cs, RequestOf(containers))
    case None =>
      NoneSent(d, nodes, pods, cs, k);
      RoundIsSound(d, nodes, pods, cs);
    case Some(n) =>
      RoomForOne(nodes, pods, cs, containers, n);
      BurstIsSound(d, nodes, pods, cs, containers, n);
  }

  lemma NoneSent(d: Deployment, nodes: Nodes, pods: Pods, cs: seq<Candidate>, k: ObjectKey)
    requires Waiting(d, pods) == {k} && Choice(cs, RequestOf(pods[k].spec.containers)) == None
    requires Committed(nodes, pods)
    ensures RoundFits(d, nodes, pods, cs)
  {
    forall j, n ensures !SentTo(d, pods, cs, j, n) {
      assert SentTo(d, pods, cs, j, n) ==> j in Waiting(d, pods);
    }
    forall n, dim | n in nodes
      ensures Used(pods, n, dim) + Total(Arriving(d, pods, cs, n, dim)) <= Amount(nodes[n].allocatable, dim)
    {
      assert Within(nodes, pods, n);
      TotalZero(Arriving(d, pods, cs, n, dim));
    }
  }

  lemma RoomForOne(nodes: Nodes, pods: Pods, cs: seq<Candidate>, containers: seq<Container>, n: string)
    requires "" !in nodes && CandidatesOf(cs, nodes, pods) && Sound(nodes, pods)
    requires NonNegative(containers) && Choice(cs, RequestOf(containers)) == Some(n)
    ensures RoomForAll(nodes, pods, n, 1, containers)
  {
    ChosenFits(nodes, pods, cs, containers, n);
    assert Within(nodes, pods, n);
    forall dim ensures Used(pods, n, dim) + 1 * Asked(containers, dim) <= Amount(nodes[n].allocatable, dim) {
      AskedNonNegative(containers, dim);
    }
  }

  /** A single idle node named "n". */
  ghost function IdleNode(alloc: ResourceList): Nodes
  {
    map["n" := Node(true, false, alloc)]
  }

  ghost function IdleCandidate(alloc: ResourceList): seq<Candidate>
  {
    [Candidate("n", alloc, NOTHING, {})]
  }

  lemma IdleNodeIsSound(pods: Pods, alloc: ResourceList)
    requires forall k :: k in pods ==> pods[k].spec.nodeName == ""
    requires NonNegativeList(alloc)
    ensures CandidatesOf(IdleCandidate(alloc), IdleNode(alloc), pods)
    ensures Sound(IdleNode(alloc), pods)
    ensures forall dim :: Used(pods, "n", dim) == 0
  {
    forall dim ensures Used(pods, "n", dim) == 0 && Amount(alloc, dim) >= 0 {
      TotalZero(Load(pods, "n", dim));
    }
    assert Reflects(IdleCandidate(alloc)[0], IdleNode(alloc), pods);
    assert Within(IdleNode(alloc), pods, "n");
  }

  lemma IdleNodeIsChosen(alloc: ResourceList, c: Container)
    requires NonNegativeList(alloc) && c.requests.accelerators == map[] && c.ports == []
    requires c.requests.cpu <= alloc.cpu && c.requests.memory <= alloc.memory
    ensures Choice(IdleCandidate(alloc), RequestOf([c])) == Some("n")
  {
    var cs := IdleCandidate(alloc);
    OneContainer(c);
    FitsDecided(cs[0], RequestOf([c]));
    assert Best(cs, RequestOf([c]), 0);
    ChoiceIs(cs, RequestOf([c]), 0);
  }

  ghost function TwoReplicas(d: Deployment, a: ObjectKey, b: ObjectKey, c: Container): Pods
  {
    var pod := Pod(map[OWNER_LABEL := d.key.name], PodSpec("", [c], []), Pending, "");
    map[a := pod, b := pod]
  }

  lemma TwoReplicasWait(d: Deployment, a: ObjectKey, b: ObjectKey, c: Container)
    requires InScope(d, a) && InScope(d, b) && a != b
    ensures Waiting(d, TwoReplicas(d, a, b, c)) == {a, b}
    ensures Identical(d, TwoReplicas(d, a, b, c), [c])
  {
  }

  lemma PairOvercommits(d: Deployment, nodes: Nodes, pods: Pods, cs: seq<Candidate>, containers: seq<Container>, n: string, a: ObjectKey, b: ObjectKey)
    requires "" !in nodes && CandidatesOf(cs, nodes, pods) && Sound(nodes, pods)
    requires Identical(d, pods, containers) && Choice(cs, RequestOf(containers)) == Some(n)
    requires Waiting(d, pods) == {a, b} && a != b
    requires n in nodes && Used(pods, n, Cpu) + 2 * Asked(containers, Cpu) > Amount(nodes[n].allocatable, Cpu)
    ensures !Sound(nodes, Scheduled(d, pods, cs))
  {
    var count := |Waiting(d, pods)|;
    assert count == 2;
    NoRoom(nodes, pods, n, count, containers, Cpu);
    BurstIsSound(d, nodes, pods, cs, containers, n);
  }

  lemma NoRoom(nodes: Nodes, pods: Pods, n: string, count: nat, containers: seq<Container>, dim: Dim)
    requires n in nodes && Used(pods, n, dim) + count * Asked(containers, dim) > Amount(nodes[n].allocatable, dim)
    ensures !RoomForAll(nodes, pods, n, count, containers)
  {
  }

  /** Two waiting replicas and one idle node with room for one: each fits the stale candidates, so both land there. */
  lemma TwoPodsOvercommit(d: Deployment, a: ObjectKey, b: ObjectKey, c: Container, alloc: ResourceList)
    requires InScope(d, a) && InScope(d, b) && a != b
    requires NonNegativeList(alloc) && c.requests.accelerators == map[] && c.ports == []
    requires c.requests.cpu <= alloc.cpu < 2 * c.requests.cpu && c.requests.memory <= alloc.memory
    ensures CandidatesOf(IdleCandidate(alloc), IdleNode(alloc), TwoReplicas(d, a, b, c))
    ensures Sound(IdleNode(alloc), TwoReplicas(d, a, b, c))
    ensures !Sound(IdleNode(alloc), Scheduled(d, TwoReplicas(d, a, b, c), IdleCandidate(alloc)))
  {
    var pods := TwoReplicas(d, a, b, c);
    IdleNodeIsSound(pods, alloc);
    IdleNodeIsChosen(alloc, c);
    TwoReplicasWait(d, a, b, c);
    OneContainer(c);
    PairOvercommits(d, IdleNode(alloc), pods, IdleCandidate(alloc), [c], "n", a, b);
  }

  // ---------------------------------------------------------------- a whole pass

  /** Dropping pods and adding unassigned ones leaves a sound cluster sound. */
  lemma ThinnerIsSound(nodes: Nodes, pods: Pods, after: Pods)
    requires "" !in nodes && Sound(nodes, pods)
    requires forall k :: k in pods ==> NonNegative(pods[k].spec.containers)
    requires forall k :: k in after ==> after[k].spec.nodeName == "" || (k in pods && after[k] == pods[k])
    ensures Sound(nodes, after)
  {
    forall n | n in nodes ensures Within(nodes, after, n) {
      assert Within(nodes, pods, n);
      forall d ensures Used(after, n, d) <= Used(pods, n, d) {
        forall k | k in pods ensures Load(pods, n, d)[k] >= 0 {
          AskedNonNegative(pods[k].spec.containers, d);
        }
        TotalDominated(Load(after, n, d), Load(pods, n, d));
      }
    }
    forall j, k ensures !Clash(after, j, k) {
      assert !Clash(pods, j, k);
    }
  }

  /** A clash between assigned pods is there after scheduling too. */
  lemma ClashStays(d: Deployment, pods: Pods, cs: seq<Candidate>, j: ObjectKey, k: ObjectKey)
    requires Clash(pods, j, k)
    ensures Clash(Scheduled(d, pods, cs), j, k)
  {
    ScheduledNode(d, pods, cs, j);
    ScheduledNode(d, pods, cs, k);
  }

  lemma ClashesStay(d: Deployment, pods: Pods, cs: seq<Candidate>)
    requires ClashFree(Scheduled(d, pods, cs))
    ensures ClashFree(pods)
  {
    forall j, k ensures Clash(pods, j, k) ==> Clash(Scheduled(d, pods, cs), j, k) {
      if Clash(pods, j, k) {
        ClashStays(d, pods, cs, j, k);
      }
    }
  }

  /** Placing pods with non-negative requests never repairs an unsound cluster. */
  lemma SchedulingKeepsUnsound(d: Deployment, nodes: Nodes, pods: Pods, cs: seq<Candidate>)
    requires "" !in nodes && Sound(nodes, Scheduled(d, pods, cs))
    requires forall k :: k in pods ==> NonNegative(pods[k].spec.containers)
    ensures Sound(nodes, pods)
  {
    var after := Scheduled(d, pods, cs);
    forall n | n in nodes ensures Within(nodes, pods, n) {
      assert Within(nodes, after, n);
      forall dim ensures Used(pods, n, dim) <= Used(after, n, dim) {
        SchedulingAddsUsage(d, pods, cs, n, dim);
      }
    }
    ClashesStay(d, pods, cs);
  }

  // ---------------------------------------------------------------- pods created on a fixed node

  ghost function Added(base: Pods, on: set<ObjectKey>, p: Pod): Pods
  {
    base + map k | k in on :: p
  }

  lemma {:induction false} AddedUsage(base: Pods, on: set<ObjectKey>, p: Pod, m: string, dim: Dim)
    requires on !! base.Keys
    ensures Used(Added(base, on, p), m, dim) == Used(base, m, dim) + |on| * Weight(p, m, dim)
    decreases |on|
  {
    if on == {} {
      AddedNone(base, p);
    } else {
      var k :| k in on;
      AddedUsage(base, on - {k}, p, m, dim);
      AddedOne(base, on - {k}, p, k, m, dim);
      assert on - {k} + {k} == on;
      OneMore(|on - {k}|, Weight(p, m, dim));
    }
  }

  lemma AddedNone(base: Pods, p: Pod)
    ensures Added(base, {}, p) == base
  {
  }

  lemma AddedOne(base: Pods, rest: set<ObjectKey>, p: Pod, k: ObjectKey, m: string, dim: Dim)
    requires k !in rest && k !in base
    ensures Used(Added(base, rest + {k}, p), m, dim) == Used(Added(base, rest, p), m, dim) + Weight(p, m, dim)
  {
    assert Added(base, rest + {k}, p) == Added(base, rest, p)[k := p];
    UsedInsert(Added(base, rest, p), k, p, m, dim);
  }

  lemma OneMore(n: int, w: int)
    ensures (n + 1) * w == n * w + w
  {
  }

  lemma AddedCommitted(nodes: Nodes, base: Pods, on: set<ObjectKey>, p: Pod)
    requires on !! base.Keys && p.spec.nodeName in nodes && Committed(nodes, base)
    ensures Committed(nodes, Added(base, on, p)) <==> RoomForAll(nodes, base, p.spec.nodeName, |on|, p.spec.containers)
  {
    var n, after := p.spec.nodeName, Added(base, on, p);
    forall m, dim ensures Used(after, m, dim) == Used(base, m, dim) + |on| * Weight(p, m, dim) {
      AddedUsage(base, on, p, m, dim);
    }
    if RoomForAll(nodes, base, n, |on|, p.spec.containers) {
      forall m | m in nodes ensures Within(nodes, after, m) {
        assert Within(nodes, base, m);
      }
    }
    if Committed(nodes, after) {
      assert Within(nodes, after, n);
    }
  }

  /** No port of the containers is taken on the node. */
  ghost predicate PortsFree(pods: Pods, n: string, containers: seq<Container>)
  {
    forall port :: port in Ports(containers) ==> !PortTaken(pods, n, port)
  }

  lemma AddedAt(base: Pods, on: set<ObjectKey>, p: Pod, k: ObjectKey)
    requires on !! base.Keys
    ensures k in Added(base, on, p) <==> k in base || k in on
    ensures k in on ==> Added(base, on, p)[k] == p
    ensures k in base ==> Added(base, on, p)[k] == base[k]
  {
  }

  lemma AddedClashes(base: Pods, on: set<ObjectKey>, p: Pod, j: ObjectKey, k: ObjectKey)
    requires on !! base.Keys && !Clash(base, j, k) && Clash(Added(base, on, p), j, k)
    ensures (j in on && k in on && Ports(p.spec.containers) != []) || !PortsFree(base, p.spec.nodeName, p.spec.containers)
  {
    AddedAt(base, on, p, j);
    AddedAt(base, on, p, k);
    var after := Added(base, on, p);
    var port :| port in Ports(after[j].spec.containers) && port in Ports(after[k].spec.containers);
    if j in on && k in base {
      assert PortTaken(base, p.spec.nodeName, port);
    } else if k in on && j in base {
      assert PortTaken(base, p.spec.nodeName, port);
    }
  }

  lemma AddedClashFree(base: Pods, on: set<ObjectKey>, p: Pod)
    requires on !! base.Keys && on != {} && p.spec.nodeName != "" && ClashFree(base)
    ensures ClashFree(Added(base, on, p)) <==>
      (|on| == 1 || Ports(p.spec.containers) == []) && PortsFree(base, p.spec.nodeName, p.spec.containers)
  {
    var after := Added(base, on, p);
    var x :| x in on;
    AddedAt(base, on, p, x);
    if !PortsFree(base, p.spec.nodeName, p.spec.containers) {
      var port :| port in Ports(p.spec.containers) && PortTaken(base, p.spec.nodeName, port);
      var k :| k in base && base[k].spec.nodeName == p.spec.nodeName && port in Ports(base[k].spec.containers);
      AddedAt(base, on, p, k);
      assert Clash(after, x, k);
    } else if |on| != 1 && Ports(p.spec.containers) != [] {
      assert |on - {x}| == |on| - 1;
      var y :| y in on - {x};
      AddedAt(base, on, p, y);
      var port := Ports(p.spec.containers)[0];
      assert port in Ports(after[x].spec.containers) && port in Ports(after[y].spec.containers);
      assert Clash(after, x, y);
    } else {
      forall j, k ensures !Clash(after, j, k) {
        if Clash(after, j, k) {
          AddedClashes(base, on, p, j, k);
          TwoElements(on, j, k);
        }
      }
    }
  }

  // ---------------------------------------------------------------- a whole pass

  /** The node new pods of a pass from `s` are created on; empty when the scheduler is to choose. */
  ghost function PinnedNode(d: Deployment, s: State): string
  {
    NewNode(d, ClaimedNode(s.volumes, d.key.namespace, d.template.mounts))
  }

  /** The pods of `s` that are left when a pass that creates `ordinals` has evicted and overwritten. */
  ghost function LeftOver(d: Deployment, s: State, ordinals: set<nat>): Pods
  {
    Swept(d, s.nodes, s.pods) - NewKeys(d, ordinals)
  }

  /** The pass creates pods on a fixed node that is ready, so nothing checks whether they fit there. */
  ghost predicate Pins(d: Deployment, s: State, z: Sizing)
  {
    z.Grow? && PinnedNode(d, s) != "" && NodeReady(s.nodes, PinnedNode(d, s))
  }

  /** The created pods fit on their fixed node next to what is left there. */
  ghost predicate PinnedFit(d: Deployment, s: State, z: Sizing)
  {
    Pins(d, s, z) ==>
      && RoomForAll(s.nodes, LeftOver(d, s, z.ordinals), PinnedNode(d, s), |z.ordinals|, d.template.containers)
      && (|z.ordinals| == 1 || Ports(d.template.containers) == [])
      && PortsFree(LeftOver(d, s, z.ordinals), PinnedNode(d, s), d.template.containers)
  }

  /** Where a settled pod comes from. */
  lemma SettledOrigin(d: Deployment, s: State, z: Sizing, k: ObjectKey)
    requires k in Settled(d, s, z)
    ensures (k in s.pods && Settled(d, s, z)[k] == s.pods[k])
      || (z.Grow? && Settled(d, s, z)[k] == NewPod(d, ClaimedNode(s.volumes, d.key.namespace, d.template.mounts))
          && (PinnedNode(d, s) == "" || Pins(d, s, z)))
  {
    if z.Grow? {
      GrownAt(d, ClaimedNode(s.volumes, d.key.namespace, d.template.mounts), Swept(d, s.nodes, s.pods), z.ordinals, k);
    }
  }

  lemma SettledNonNegative(d: Deployment, s: State, z: Sizing)
    requires NonNegative(d.template.containers) && forall k :: k in s.pods ==> NonNegative(s.pods[k].spec.containers)
    ensures forall k :: k in Settled(d, s, z) ==> NonNegative(Settled(d, s, z)[k].spec.containers)
  {
    forall k | k in Settled(d, s, z) ensures NonNegative(Settled(d, s, z)[k].spec.containers) {
      SettledOrigin(d, s, z, k);
    }
  }

  lemma UnpinnedIsSound(d: Deployment, s: State, z: Sizing)
    requires "" !in s.nodes && Sound(s.nodes, s.pods) && !Pins(d, s, z)
    requires forall k :: k in s.pods ==> NonNegative(s.pods[k].spec.containers)
    ensures Sound(s.nodes, Settled(d, s, z))
  {
    var settled := Settled(d, s, z);
    forall k | k in settled ensures settled[k].spec.nodeName == "" || (k in s.pods && settled[k] == s.pods[k]) {
      SettledOrigin(d, s, z, k);
    }
    ThinnerIsSound(s.nodes, s.pods, settled);
  }

  lemma PinnedIsSound(d: Deployment, s: State, z: Sizing)
    requires "" !in s.nodes && Sound(s.nodes, s.pods) && Pins(d, s, z) && z.ordinals != {}
    requires forall k :: k in s.pods ==> NonNegative(s.pods[k].spec.containers)
    ensures Sound(s.nodes, Settled(d, s, z)) <==> PinnedFit(d, s, z)
  {
    var p := Fresh(d, s);
    var left, on := LeftOver(d, s, z.ordinals), NewKeys(d, z.ordinals);
    SettledIsAdded(d, s, z);
    NewKeysSize(d, z.ordinals);
    ThinnerIsSound(s.nodes, s.pods, left);
    AddedCommitted(s.nodes, left, on, p);
    assert on != {} by {
      var i :| i in z.ordinals;
      assert NewKey(d, i) in on;
    }
    AddedClashFree(left, on, p);
  }

  /** After eviction and sizing the cluster is sound if and only if what was created on a fixed node fits there. */
  lemma SettledIsSound(d: Deployment, s: State, z: Sizing)
    requires "" !in s.nodes && Sound(s.nodes, s.pods)
    requires Sizes(d, Survivors(d, s.nodes, s.pods), z)
    requires forall k :: k in s.pods ==> NonNegative(s.pods[k].spec.containers)
    ensures Sound(s.nodes, Settled(d, s, z)) <==> PinnedFit(d, s, z)
  {
    if Pins(d, s, z) {
      PinnedIsSound(d, s, z);
    } else {
      UnpinnedIsSound(d, s, z);
    }
  }

  /** Every pass from a sound cluster ends in a sound one if and only if the pods it creates on a fixed node fit there and
      the round that places the others fits. */
  lemma PassIsSound(d: Deployment, s: State, z: Sizing, cs: seq<Candidate>, s': State)
    requires PassVia(d, s, z, cs, s')
    requires "" !in s.nodes && Sound(s.nodes, s.pods)
    requires NonNegative(d.template.containers) && forall k :: k in s.pods ==> NonNegative(s.pods[k].spec.containers)
    ensures Sound(s'.nodes, s'.pods) <==> PinnedFit(d, s, z) && RoundFits(d, s.nodes, Settled(d, s, z), cs)
  {
    SettledIsSound(d, s, z);
    SettledNonNegative(d, s, z);
    if PinnedFit(d, s, z) {
      RoundIsSound(d, s.nodes, Settled(d, s, z), cs);
    } else if Sound(s'.nodes, s'.pods) {
      SchedulingKeepsUnsound(d, s.nodes, Settled(d, s, z), cs);
    }
  }

  // ---------------------------------------------------------------- a whole pass, whatever the signs of the requests

  /** The pods of `s` that a pass neither evicts, nor trims, nor overwrites. */
  ghost function Remaining(d: Deployment, s: State, z: Sizing): Pods
  {
    match z
    case Grow(ordinals) => LeftOver(d, s, ordinals)
    case Trim(dropped) => Swept(d, s.nodes, s.pods) - dropped
    case Keep => Swept(d, s.nodes, s.pods)
  }

  /** The pods a pass creates and keeps. */
  ghost function Created(d: Deployment, s: State, z: Sizing): set<ObjectKey>
  {
    if z.Grow? && NewNodeAlive(d, s) then NewKeys(d, z.ordinals) else {}
  }

  ghost function Fresh(d: Deployment, s: State): Pod
  {
    NewPod(d, ClaimedNode(s.volumes, d.key.namespace, d.template.mounts))
  }

  lemma SweptGrownAt(d: Deployment, nodes: Nodes, base: Pods, claimed: string, ordinals: set<nat>, k: ObjectKey)
    requires Swept(d, nodes, base) == base
    ensures var swept := Swept(d, nodes, Grown(d, claimed, base, ordinals));
      && (k in swept <==> if k in NewKeys(d, ordinals) then Alive(nodes, NewPod(d, claimed)) else k in base)
      && (k in swept ==> swept[k] == if k in NewKeys(d, ordinals) then NewPod(d, claimed) else base[k])
  {
    GrownAt(d, claimed, base, ordinals, k);
    assert k in base ==> k in Swept(d, nodes, base);
  }

  lemma GrownIsAdded(d: Deployment, s: State, ordinals: set<nat>)
    ensures Settled(d, s, Grow(ordinals)) == Added(LeftOver(d, s, ordinals), Created(d, s, Grow(ordinals)), Fresh(d, s))
  {
    var claimed := ClaimedNode(s.volumes, d.key.namespace, d.template.mounts);
    var settled := Settled(d, s, Grow(ordinals));
    var left, created := LeftOver(d, s, ordinals), Created(d, s, Grow(ordinals));
    assert Alive(s.nodes, Fresh(d, s)) <==> NewNodeAlive(d, s);
    assert created !! left.Keys;
    forall k
      ensures k in settled <==> k in Added(left, created, Fresh(d, s))
      ensures k in settled ==> settled[k] == Added(left, created, Fresh(d, s))[k]
    {
      SweptGrownAt(d, s.nodes, Swept(d, s.nodes, s.pods), claimed, ordinals, k);
      AddedAt(left, created, Fresh(d, s), k);
    }
  }

  lemma SettledIsAdded(d: Deployment, s: State, z: Sizing)
    ensures Created(d, s, z) !! Remaining(d, s, z).Keys
    ensures Settled(d, s, z) == Added(Remaining(d, s, z), Created(d, s, z), Fresh(d, s))
  {
    match z
    case Grow(ordinals) =>
      GrownIsAdded(d, s, ordinals);
    case Trim(dropped) =>
      AddedNone(Remaining(d, s, z), Fresh(d, s));
    case Keep =>
      AddedNone(Remaining(d, s, z), Fresh(d, s));
  }

  /** Conservation through a pass: a node carries what remains there, what is created there and what is sent there. */
  lemma PassUsage(d: Deployment, s: State, z: Sizing, cs: seq<Candidate>, s': State, n: string, dim: Dim)
    requires PassVia(d, s, z, cs, s') && n != ""
    ensures Used(s'.pods, n, dim) ==
      Used(Remaining(d, s, z), n, dim) + |Created(d, s, z)| * Weight(Fresh(d, s), n, dim)
      + Total(Arriving(d, Settled(d, s, z), cs, n, dim))
  {
    SettledIsAdded(d, s, z);
    AddedUsage(Remaining(d, s, z), Created(d, s, z), Fresh(d, s), n, dim);
    RoundUsage(d, Settled(d, s, z), cs, n, dim);
  }

  /** No two pods share a port through what the pass creates on a fixed node or sends to the same node. */
  ghost predicate PortsFit(d: Deployment, s: State, z: Sizing, cs: seq<Candidate>)
  {
    && (Pins(d, s, z) ==>
          && (|Created(d, s, z)| == 1 || Ports(d.template.containers) == [])
          && PortsFree(Remaining(d, s, z), PinnedNode(d, s), d.template.containers))
    && (forall j, k :: !Meet(d, Settled(d, s, z), cs, j, k))
  }

  lemma RemainingClashFree(d: Deployment, s: State, z: Sizing)
    requires ClashFree(s.pods)
    ensures ClashFree(Remaining(d, s, z))
  {
    forall j, k ensures !Clash(Remaining(d, s, z), j, k) {
      assert !Clash(s.pods, j, k);
    }
  }

  lemma UnpinnedClashFree(d: Deployment, s: State, z: Sizing)
    requires ClashFree(s.pods) && !Pins(d, s, z)
    ensures ClashFree(Settled(d, s, z))
  {
    forall j, k | Clash(Settled(d, s, z), j, k) ensures Clash(s.pods, j, k) {
      SettledOrigin(d, s, z, j);
      SettledOrigin(d, s, z, k);
    }
  }

  lemma PinnedClashFree(d: Deployment, s: State, z: Sizing)
    requires ClashFree(s.pods) && Pins(d, s, z) && z.ordinals != {}
    ensures ClashFree(Settled(d, s, z)) <==>
      (|Created(d, s, z)| == 1 || Ports(d.template.containers) == [])
      && PortsFree(Remaining(d, s, z), PinnedNode(d, s), d.template.containers)
  {
    SettledIsAdded(d, s, z);
    RemainingClashFree(d, s, z);
    assert Created(d, s, z) != {} by {
      var i :| i in z.ordinals;
      assert NewKey(d, i) in NewKeys(d, z.ordinals);
    }
    AddedClashFree(Remaining(d, s, z), Created(d, s, z), Fresh(d, s));
  }

  lemma RoundClashesExactly(d: Deployment, nodes: Nodes, pods: Pods, cs: seq<Candidate>)
    requires "" !in nodes && (Waiting(d, pods) != {} ==> CandidatesOf(cs, nodes, pods))
    ensures ClashFree(Scheduled(d, pods, cs)) <==> ClashFree(pods) && forall j, k :: !Meet(d, pods, cs, j, k)
  {
    if Waiting(d, pods) == {} {
      NothingWaiting(d, pods, cs);
      forall j, k ensures !Meet(d, pods, cs, j, k) {
        assert forall n :: SentTo(d, pods, cs, j, n) ==> j in Waiting(d, pods);
      }
    } else if ClashFree(pods) {
      RoundClashFree(d, nodes, pods, cs);
    } else if ClashFree(Scheduled(d, pods, cs)) {
      ClashesStay(d, pods, cs);
    }
  }

  lemma PassClashFree(d: Deployment, s: State, z: Sizing, cs: seq<Candidate>, s': State)
    requires PassVia(d, s, z, cs, s') && "" !in s.nodes && ClashFree(s.pods)
    ensures ClashFree(s'.pods) <==> PortsFit(d, s, z, cs)
  {
    RoundClashesExactly(d, s.nodes, Settled(d, s, z), cs);
    if Pins(d, s, z) {
      PinnedClashFree(d, s, z);
    } else {
      UnpinnedClashFree(d, s, z);
    }
  }

  /** Every pass, with requests of any sign and however committed the nodes were before: afterwards no node is overcommitted
      and no port is shared if and only if on every node what remains, what is created and what is sent there fit together,
      and the ports fit. */
  lemma PassSoundExactly(d: Deployment, s: State, z: Sizing, cs: seq<Candidate>, s': State)
    requires PassVia(d, s, z, cs, s') && "" !in s.nodes && ClashFree(s.pods)
    ensures Sound(s'.nodes, s'.pods) <==>
      && PortsFit(d, s, z, cs)
      && forall n, dim :: n in s.nodes ==>
           Used(Remaining(d, s, z), n, dim) + |Created(d, s, z)| * Weight(Fresh(d, s), n, dim)
           + Total(Arriving(d, Settled(d, s, z), cs, n, dim)) <= Amount(s.nodes[n].allocatable, dim)
  {
    PassClashFree(d, s, z, cs, s');
    forall n, dim | n in s.nodes
      ensures Used(s'.pods, n, dim) ==
        Used(Remaining(d, s, z), n, dim) + |Created(d, s, z)| * Weight(Fresh(d, s), n, dim)
        + Total(Arriving(d, Settled(d, s, z), cs, n, dim))
    {
      PassUsage(d, s, z, cs, s', n, dim);
    }
    if Committed(s'.nodes, s'.pods) {
      forall n, dim | n in s.nodes ensures Used(s'.pods, n, dim) <= Amount(s.nodes[n].allocatable, dim) {
        assert Within(s'.nodes, s'.pods, n);
      }
    }
  }

  // ---------------------------------------------------------------- passes in special position

  /** A pass that pins nothing and has identical pods to place is sound if and only if the chosen node has room for all of
      them together, and there is one pod or there are no ports. */
  lemma PassBurstIsSound(d: Deployment, s: State, z: Sizing, cs: seq<Candidate>, s': State, containers: seq<Container>, n: string)
    requires PassVia(d, s, z, cs, s') && !Pins(d, s, z)
    requires "" !in s.nodes && Sound(s.nodes, s.pods)
    requires NonNegative(d.template.containers) && forall k :: k in s.pods ==> NonNegative(s.pods[k].spec.containers)
    requires Waiting(d, Settled(d, s, z)) != {} && Identical(d, Settled(d, s, z), containers)
    requires Choice(cs, RequestOf(containers)) == Some(n)
    ensures Sound(s'.nodes, s'.pods) <==>
      && RoomForAll(s.nodes, Settled(d, s, z), n, |Waiting(d, Settled(d, s, z))|, containers)
      && (|Waiting(d, Settled(d, s, z))| <= 1 || Ports(containers) == [])
  {
    PassIsSound(d, s, z, cs, s');
    UnpinnedIsSound(d, s, z);
    BurstIsSound(d, s.nodes, Settled(d, s, z), cs, containers, n);
  }

  /** A pass that pins nothing and has one pod to place is always sound. */
  lemma SmallPassIsSound(d: Deployment, s: State, z: Sizing, cs: seq<Candidate>, s': State)
    requires PassVia(d, s, z, cs, s') && !Pins(d, s, z)
    requires "" !in s.nodes && Sound(s.nodes, s.pods)
    requires NonNegative(d.template.containers) && forall k :: k in s.pods ==> NonNegative(s.pods[k].spec.containers)
    requires |Waiting(d, Settled(d, s, z))| <= 1
    ensures Sound(s'.nodes, s'.pods)
  {
    var settled := Settled(d, s, z);
    SettledNonNegative(d, s, z);
    UnpinnedIsSound(d, s, z);
    if Waiting(d, settled) == {} {
      NothingWaiting(d, settled, cs);
    } else {
      var k :| k in Waiting(d, settled);
      OneElement(Waiting(d, settled), k);
      SinglePlacementIsSound(d, s.nodes, settled, cs, k);
    }
  }

  /** A template that names a node too small for one replica: the scheduler is never asked, and every pass that creates
      the pods overcommits the node. */
  lemma PinnedOvercommits(d: Deployment, s: State, s': State, dim: Dim)
    requires Pass(d, s, s') && Want(d) > 0 && s.pods == map[]
    requires "" !in s.nodes && forall n :: n in s.nodes ==> NonNegativeList(s.nodes[n].allocatable)
    requires d.template.mounts == [] && d.template.nodeName != "" && NodeReady(s.nodes, d.template.nodeName)
    requires NonNegative(d.template.containers)
    requires Amount(s.nodes[d.template.nodeName].allocatable, dim) < Asked(d.template.containers, dim)
    ensures Sound(s.nodes, s.pods) && !Sound(s'.nodes, s'.pods)
  {
    var z, cs :| PassVia(d, s, z, cs, s');
    EmptyIsSound(s.nodes, s.pods);
    assert Survivors(d, s.nodes, s.pods) == {};
    TooSmall(d, s, z, dim);
    PassIsSound(d, s, z, cs, s');
  }

  lemma TooSmall(d: Deployment, s: State, z: Sizing, dim: Dim)
    requires Pins(d, s, z) && z.ordinals != {} && s.pods == map[]
    requires NonNegative(d.template.containers)
    requires Amount(s.nodes[PinnedNode(d, s)].allocatable, dim) < Asked(d.template.containers, dim)
    ensures !PinnedFit(d, s, z)
  {
    var left, n, count := LeftOver(d, s, z.ordinals), PinnedNode(d, s), |z.ordinals|;
    assert left == map[];
    assert Load(left, n, dim) == map[];
    var asked := Asked(d.template.containers, dim);
    AskedNonNegative(d.template.containers, dim);
    assert count > 0 && count * asked >= asked;
    NoRoom(s.nodes, left, n, count, d.template.containers, dim);
  }

  lemma EmptyIsSound(nodes: Nodes, pods: Pods)
    requires pods == map[] && forall n :: n in nodes ==> NonNegativeList(nodes[n].allocatable)
    ensures Sound(nodes, pods) && forall n, dim :: Used(pods, n, dim) == 0
  {
    forall n, dim ensures Used(pods, n, dim) == 0 {
      assert Load(pods, n, dim) == map[];
    }
    forall n | n in nodes ensures Within(nodes, pods, n) {
      assert NonNegativeList(nodes[n].allocatable);
      assert forall dim :: Amount(nodes[n].allocatable, dim) >= 0;
    }
  }

  lemma OneContainer(c: Container)
    ensures RequestOf([c]).amounts.cpu == c.requests.cpu && RequestOf([c]).amounts.memory == c.requests.memory
    ensures RequestOf([c]).ports == c.ports
    ensures c.requests.accelerators == map[] ==> RequestOf([c]).amounts.accelerators == map[]
    ensures forall d :: Asked([c], d) == Amount(c.requests, d)
  {
    assert [c][..0] == [];
    assert RequestOf([]) == Request(NOTHING, []);
  }
}
