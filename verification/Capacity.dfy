/** internal/controller/capacity.go: cluster-wide capacity and how many more replicas it admits. */
module Capacity {
  import opened Names
  import opened Cluster
  import opened Scheduler
  import opened Sums
  import opened Usage
  import opened Placement

  datatype ClusterCapacity = ClusterCapacity(capacity: ResourceList, used: ResourceList)

  function Remaining(c: ClusterCapacity, d: Dim): int
  {
    Amount(c.capacity, d) - Amount(c.used, d)
  }

  // ---------------------------------------------------------------- aggregate amounts

  /** A node counts only while it is ready and schedulable. */
  ghost function OfferedBy(n: Node, d: Dim): int
  {
    if Eligible(n) then Amount(n.allocatable, d) else 0
  }

  ghost function TakenOn(n: Node, name: string, pods: Pods, d: Dim): int
  {
    if Eligible(n) then Used(pods, name, d) else 0
  }

  ghost function Offered(nodes: Nodes, d: Dim): map<string, int>
  {
    map n | n in nodes :: OfferedBy(nodes[n], d)
  }

  ghost function Taken(nodes: Nodes, pods: Pods, d: Dim): map<string, int>
  {
    map n | n in nodes :: TakenOn(nodes[n], n, pods, d)
  }

  ghost predicate Aggregates(c: ClusterCapacity, nodes: Nodes, pods: Pods)
  {
    forall d :: Amount(c.capacity, d) == Total(Offered(nodes, d)) && Amount(c.used, d) == Total(Taken(nodes, pods, d))
  }

  method AddLists(a: ResourceList, b: ResourceList) returns (r: ResourceList)
    ensures r == Add(a, b)
  {
    var accelerators := AddAccelerators(a.accelerators, b.accelerators);
    r := ResourceList(a.cpu + b.cpu, a.memory + b.memory, accelerators);
  }

  lemma TotalsNext(nodes: Nodes, pods: Pods, name: string, n: Node, d: Dim)
    requires name !in nodes
    ensures Total(Offered(nodes[name := n], d)) == Total(Offered(nodes, d)) + OfferedBy(n, d)
    ensures Total(Taken(nodes[name := n], pods, d)) == Total(Taken(nodes, pods, d)) + TakenOn(n, name, pods, d)
  {
    assert Offered(nodes[name := n], d) == Offered(nodes, d)[name := OfferedBy(n, d)];
    assert Taken(nodes[name := n], pods, d) == Taken(nodes, pods, d)[name := TakenOn(n, name, pods, d)];
    TotalInsert(Offered(nodes, d), name, OfferedBy(n, d));
    TotalInsert(Taken(nodes, pods, d), name, TakenOn(n, name, pods, d));
  }

  lemma AggregatesNext(c: ClusterCapacity, nodes: Nodes, pods: Pods, name: string, n: Node, u: NodeUsage, c': ClusterCapacity)
    requires Aggregates(c, nodes, pods) && name !in nodes
    requires UsageOf(u, pods, name)
    requires c' == if Eligible(n) then ClusterCapacity(Add(c.capacity, n.allocatable), Add(c.used, u.amounts)) else c
    ensures Aggregates(c', nodes[name := n], pods)
  {
    forall d
      ensures Amount(c'.capacity, d) == Total(Offered(nodes[name := n], d))
      ensures Amount(c'.used, d) == Total(Taken(nodes[name := n], pods, d))
    {
      TotalsNext(nodes, pods, name, n, d);
      AmountOfAdd(c.capacity, n.allocatable, d);
      AmountOfAdd(c.used, u.amounts, d);
    }
  }

  /** Sums over the ready, schedulable nodes, in any listing order. */
  method ComputeClusterCapacity(nodes: Nodes, usage: map<string, NodeUsage>, ghost pods: Pods) returns (c: ClusterCapacity)
    requires "" !in nodes
    requires forall n :: n != "" ==> UsageOf(At(usage, n), pods, n)
    ensures Aggregates(c, nodes, pods)
  {
    c := ClusterCapacity(NOTHING, NOTHING);
    var all := ListKeys(nodes.Keys);
    assert Visited(nodes, all, 0) == map[];
    for i := 0 to |all|
      invariant Aggregates(c, Visited(nodes, all, i), pods)
    {
      var name := all[i];
      var n := nodes[name];
      VisitedNext(nodes, all, i);
      ghost var before := c;
      if Eligible(n) {
        var u := At(usage, name);
        var capacity := AddLists(c.capacity, n.allocatable);
        var used := AddLists(c.used, u.amounts);
        c := ClusterCapacity(capacity, used);
      }
      AggregatesNext(before, Visited(nodes, all, i), pods, name, n, At(usage, name), c);
    }
    VisitedAll(nodes, all);
  }

  /** What one pod contributes to the cluster: its request, if it sits on a ready, schedulable node. */
  ghost function CountedFor(nodes: Nodes, p: Pod, d: Dim): int
  {
    if p.spec.nodeName in nodes && Eligible(nodes[p.spec.nodeName]) then Asked(p.spec.containers, d) else 0
  }

  ghost function Counted(nodes: Nodes, pods: Pods, d: Dim): map<ObjectKey, int>
  {
    map k | k in pods :: CountedFor(nodes, pods[k], d)
  }

  lemma CountedNext(nodes: Nodes, pods: Pods, k: ObjectKey, p: Pod, d: Dim)
    requires k !in pods
    ensures Total(Counted(nodes, pods[k := p], d)) == Total(Counted(nodes, pods, d)) + CountedFor(nodes, p, d)
  {
    assert Counted(nodes, pods[k := p], d) == Counted(nodes, pods, d)[k := CountedFor(nodes, p, d)];
    TotalInsert(Counted(nodes, pods, d), k, CountedFor(nodes, p, d));
  }

  lemma NoPodsNothingTaken(nodes: Nodes, d: Dim)
    ensures Total(Taken(nodes, map[], d)) == 0
  {
    forall n | n in nodes ensures Taken(nodes, map[], d)[n] == 0 {
      assert Load(map[], n, d) == map[];
    }
    TotalZero(Taken(nodes, map[], d));
  }

  /** Conservation across the cluster: summing by node and summing by pod give the same total. */
  lemma {:induction false} UsageByPod(nodes: Nodes, pods: Pods, d: Dim)
    ensures Total(Taken(nodes, pods, d)) == Total(Counted(nodes, pods, d))
    decreases |pods|
  {
    if pods.Keys == {} {
      assert pods == map[];
      NoPodsNothingTaken(nodes, d);
    } else {
      var k :| k in pods;
      var rest := pods - {k};
      UsageByPod(nodes, rest, d);
      assert pods == rest[k := pods[k]];
      TakenGrows(nodes, rest, k, pods[k], d);
      CountedNext(nodes, rest, k, pods[k], d);
    }
  }

  /** One more pod adds its request to the cluster once, through the node it sits on. */
  lemma TakenGrows(nodes: Nodes, pods: Pods, k: ObjectKey, p: Pod, d: Dim)
    requires k !in pods
    ensures Total(Taken(nodes, pods[k := p], d)) == Total(Taken(nodes, pods, d)) + CountedFor(nodes, p, d)
  {
    var n := p.spec.nodeName;
    var delta := map m | m in nodes :: if m == n then CountedFor(nodes, p, d) else 0;
    forall m | m in nodes ensures Taken(nodes, pods[k := p], d)[m] == Taken(nodes, pods, d)[m] + delta[m] {
      TakenOnNext(nodes, pods, k, p, m, d);
    }
    TotalAdd(Taken(nodes, pods, d), delta, Taken(nodes, pods[k := p], d));
    if n in nodes {
      TotalSingle(delta, n);
    } else {
      TotalZero(delta);
    }
  }

  lemma TakenOnNext(nodes: Nodes, pods: Pods, k: ObjectKey, p: Pod, m: string, d: Dim)
    requires k !in pods && m in nodes
    ensures TakenOn(nodes[m], m, pods[k := p], d) ==
      TakenOn(nodes[m], m, pods, d) + if m == p.spec.nodeName then CountedFor(nodes, p, d) else 0
  {
    UsedInsert(pods, k, p, m, d);
  }

  ghost function Open(nodes: Nodes, d: Dim): map<string, int>
  {
    map n | n in nodes && nodes[n].ready && !nodes[n].unschedulable :: Amount(nodes[n].allocatable, d)
  }

  /** The aggregate on the fields: allocatable amounts of the ready, uncordoned nodes. */
  lemma {:induction false} OfferedMeans(nodes: Nodes, d: Dim)
    ensures Total(Offered(nodes, d)) == Total(Open(nodes, d))
    decreases |nodes|
  {
    if nodes.Keys == {} {
      TotalZero(Offered(nodes, d));
      TotalZero(Open(nodes, d));
    } else {
      var n :| n in nodes;
      var rest := nodes - {n};
      OfferedMeans(rest, d);
      assert nodes == rest[n := nodes[n]];
      TotalsNext(rest, map[], n, nodes[n], d);
      OpenNext(rest, n, nodes[n], d);
    }
  }

  lemma OpenNext(nodes: Nodes, name: string, n: Node, d: Dim)
    requires name !in nodes
    ensures Total(Open(nodes[name := n], d)) == Total(Open(nodes, d)) + if n.ready && !n.unschedulable then Amount(n.allocatable, d) else 0
  {
    if n.ready && !n.unschedulable {
      assert Open(nodes[name := n], d) == Open(nodes, d)[name := Amount(n.allocatable, d)];
      TotalInsert(Open(nodes, d), name, Amount(n.allocatable, d));
    } else {
      assert Open(nodes[name := n], d) == Open(nodes, d);
    }
  }

  ghost function Busy(nodes: Nodes, pods: Pods, d: Dim): map<ObjectKey, int>
  {
    map k | k in pods && pods[k].spec.nodeName in nodes && nodes[pods[k].spec.nodeName].ready && !nodes[pods[k].spec.nodeName].unschedulable
      :: Asked(pods[k].spec.containers, d)
  }

  lemma BusyNext(nodes: Nodes, pods: Pods, k: ObjectKey, p: Pod, d: Dim)
    requires k !in pods
    ensures Total(Busy(nodes, pods[k := p], d)) == Total(Busy(nodes, pods, d)) + CountedFor(nodes, p, d)
  {
    var n := p.spec.nodeName;
    if n in nodes && nodes[n].ready && !nodes[n].unschedulable {
      assert Busy(nodes, pods[k := p], d) == Busy(nodes, pods, d)[k := Asked(p.spec.containers, d)];
      TotalInsert(Busy(nodes, pods, d), k, Asked(p.spec.containers, d));
    } else {
      assert Busy(nodes, pods[k := p], d) == Busy(nodes, pods, d);
    }
  }

  lemma {:induction false} BusyIsCounted(nodes: Nodes, pods: Pods, d: Dim)
    ensures Total(Busy(nodes, pods, d)) == Total(Counted(nodes, pods, d))
    decreases |pods|
  {
    if pods.Keys == {} {
      TotalZero(Busy(nodes, pods, d));
      TotalZero(Counted(nodes, pods, d));
    } else {
      var k :| k in pods;
      var rest := pods - {k};
      BusyIsCounted(nodes, rest, d);
      assert pods == rest[k := pods[k]];
      CountedNext(nodes, rest, k, pods[k], d);
      BusyNext(nodes, rest, k, pods[k], d);
    }
  }

  /** The aggregate on the fields: requests of the pods on ready, uncordoned nodes. */
  lemma TakenMeans(nodes: Nodes, pods: Pods, d: Dim)
    ensures Total(Taken(nodes, pods, d)) == Total(Busy(nodes, pods, d))
  {
    UsageByPod(nodes, pods, d);
    BusyIsCounted(nodes, pods, d);
  }

  // ---------------------------------------------------------------- how many more replicas

  /** `extra` units of size `per` fit into `remaining`; nothing is needed for a size of zero or less. */
  ghost predicate FitsExtra(remaining: int, per: int, extra: nat)
  {
    per <= 0 || extra == 0 || extra * per <= remaining
  }

  lemma FitsExtraMonotone(remaining: int, per: int, extra: nat, less: nat)
    requires FitsExtra(remaining, per, extra) && less <= extra
    ensures FitsExtra(remaining, per, less)
  {
    if per > 0 && less > 0 {
      assert (extra - less) * per >= 0;
    }
  }

  /** The largest 32-bit count that fits. */
  function FitCount(remaining: int, perUnit: int): (r: int)
    ensures 0 <= r <= MAX_INT32
    ensures FitsExtra(remaining, perUnit, r)
    ensures r < MAX_INT32 ==> !FitsExtra(remaining, perUnit, r + 1)
  {
    if perUnit <= 0 then MAX_INT32
    else if remaining <= 0 then 0
    else
      var fit := remaining / perUnit;
      QuotientFits(remaining, perUnit);
      if fit > MAX_INT32 then
        FitsExtraMonotone(remaining, perUnit, fit, MAX_INT32);
        MAX_INT32
      else fit
  }

  lemma QuotientFits(remaining: int, perUnit: int)
    requires perUnit > 0 && remaining > 0
    ensures remaining / perUnit >= 0
    ensures (remaining / perUnit) * perUnit <= remaining < (remaining / perUnit + 1) * perUnit
  {
    var q := remaining / perUnit;
    assert remaining == q * perUnit + remaining % perUnit;
    assert (q + 1) * perUnit == q * perUnit + perUnit;
    assert q >= 0 by {
      assert q < 0 ==> (q + 1) * perUnit <= 0;
    }
  }

  lemma FitCountIsLargest(remaining: int, perUnit: int, extra: nat)
    requires extra <= MAX_INT32
    ensures FitsExtra(remaining, perUnit, extra) <==> extra <= FitCount(remaining, perUnit)
  {
    var r := FitCount(remaining, perUnit);
    if extra <= r {
      FitsExtraMonotone(remaining, perUnit, r, extra);
    } else if FitsExtra(remaining, perUnit, extra) {
      FitsExtraMonotone(remaining, perUnit, extra, r + 1);
    }
  }

  /** `extra` replicas fit the aggregate free amount in every dimension. */
  ghost predicate FitsCluster(c: ClusterCapacity, per: ResourceList, extra: nat)
  {
    forall d :: FitsExtra(Remaining(c, d), Amount(per, d), extra)
  }

  /** The loop lowers `max` dimension by dimension and ends at the largest count that fits all of them. */
  method MaxAdditionalReplicas(c: ClusterCapacity, per: ResourceList) returns (max: int)
    ensures 0 <= max <= MAX_INT32
    ensures forall extra: nat :: extra <= MAX_INT32 ==> (FitsCluster(c, per, extra) <==> extra <= max)
  {
    max := MAX_INT32;
    ghost var dims := {Cpu, Memory};
    var fit := FitCount(c.capacity.cpu - c.used.cpu, per.cpu);
    if fit < max {
      max := fit;
    }
    fit := FitCount(c.capacity.memory - c.used.memory, per.memory);
    if fit < max {
      max := fit;
    }
    var names := ListKeys(per.accelerators.Keys);
    for i := 0 to |names|
      invariant 0 <= max <= MAX_INT32
      invariant dims == {Cpu, Memory} + set j | 0 <= j < i :: Accelerator(names[j])
      invariant IsLeast(c, per, dims, max)
    {
      var name := names[i];
      var remaining := Count(c.capacity.accelerators, name) - Count(c.used.accelerators, name);
      fit := FitCount(remaining, per.accelerators[name]);
      dims := dims + {Accelerator(name)};
      if fit < max {
        max := fit;
      }
    }
    forall extra: nat | extra <= MAX_INT32 ensures FitsCluster(c, per, extra) <==> extra <= max {
      LeastFitsAll(c, per, dims, max, extra);
    }
  }

  /** `max` is the least of the per-dimension counts over `dims`. */
  ghost predicate IsLeast(c: ClusterCapacity, per: ResourceList, dims: set<Dim>, max: int)
  {
    && (forall d :: d in dims ==> max <= FitCount(Remaining(c, d), Amount(per, d)))
    && (max == MAX_INT32 || exists d :: d in dims && max == FitCount(Remaining(c, d), Amount(per, d)))
  }

  lemma LeastFitsAll(c: ClusterCapacity, per: ResourceList, dims: set<Dim>, max: int, extra: nat)
    requires IsLeast(c, per, dims, max) && extra <= MAX_INT32
    requires Cpu in dims && Memory in dims && forall name :: name in per.accelerators ==> Accelerator(name) in dims
    ensures FitsCluster(c, per, extra) <==> extra <= max
  {
    forall d ensures FitsExtra(Remaining(c, d), Amount(per, d), extra) <==> extra <= FitCount(Remaining(c, d), Amount(per, d)) {
      FitCountIsLargest(Remaining(c, d), Amount(per, d), extra);
    }
    if extra <= max {
      forall d ensures FitsExtra(Remaining(c, d), Amount(per, d), extra) {
        if d !in dims {
          assert Amount(per, d) == 0;
        }
      }
    }
    if FitsCluster(c, per, extra) && max != MAX_INT32 {
      var d :| d in dims && max == FitCount(Remaining(c, d), Amount(per, d));
      assert FitsExtra(Remaining(c, d), Amount(per, d), extra);
    }
  }

  // ---------------------------------------------------------------- the aggregate bounds real placement

  /** One more pod is placed by the scheduler, with usage recomputed from the stored pods. */
  ghost predicate PlaceOne(nodes: Nodes, before: Pods, containers: seq<Container>, after: Pods)
  {
    exists cs, k, n ::
      && CandidatesOf(cs, nodes, before)
      && Choice(cs, RequestOf(containers)) == Some(n)
      && k !in before
      && PlacedAt(before, k, n, containers, after)
  }

  ghost predicate PlacedAt(before: Pods, k: ObjectKey, n: string, containers: seq<Container>, after: Pods)
  {
    exists p: Pod :: p.spec.nodeName == n && p.spec.containers == containers && after == before[k := p]
  }

  lemma PlaceOneEffect(nodes: Nodes, before: Pods, containers: seq<Container>, after: Pods)
    requires "" !in nodes && NonNegative(containers)
    requires PlaceOne(nodes, before, containers, after) && Committed(nodes, before)
    ensures Committed(nodes, after)
    ensures forall d :: Total(Taken(nodes, after, d)) == Total(Taken(nodes, before, d)) + Asked(containers, d)
  {
    var cs, k, n :| CandidatesOf(cs, nodes, before) && Choice(cs, RequestOf(containers)) == Some(n) && k !in before
      && PlacedAt(before, k, n, containers, after);
    var p: Pod :| p.spec.nodeName == n && p.spec.containers == containers && after == before[k := p];
    ChosenFits(nodes, before, cs, containers, n);
    forall d ensures Total(Taken(nodes, after, d)) == Total(Taken(nodes, before, d)) + Asked(containers, d) {
      TakenGrows(nodes, before, k, p, d);
    }
    forall m | m in nodes ensures Within(nodes, after, m) {
      assert Within(nodes, before, m);
      forall d ensures Used(after, m, d) <= Amount(nodes[m].allocatable, d) {
        UsedInsert(before, k, p, m, d);
        AskedNonNegative(containers, d);
      }
    }
  }

  ghost predicate Placements(nodes: Nodes, containers: seq<Container>, states: seq<Pods>)
  {
    && states != []
    && (forall i :: 0 <= i < |states| - 1 ==> PlaceOne(nodes, states[i], containers, states[i + 1]))
  }

  lemma {:induction false} PlacementsEffect(nodes: Nodes, containers: seq<Container>, states: seq<Pods>, k: nat)
    requires "" !in nodes && NonNegative(containers)
    requires Placements(nodes, containers, states) && Committed(nodes, states[0])
    requires k < |states|
    ensures Committed(nodes, states[k])
    ensures forall d :: Total(Taken(nodes, states[k], d)) == Total(Taken(nodes, states[0], d)) + k * Asked(containers, d)
  {
    if k > 0 {
      PlacementsEffect(nodes, containers, states, k - 1);
      PlaceOneEffect(nodes, states[k - 1], containers, states[k]);
      forall d ensures (k - 1) * Asked(containers, d) + Asked(containers, d) == k * Asked(containers, d) {
        Distribute(k, Asked(containers, d));
      }
    }
  }

  lemma Distribute(k: int, a: int)
    ensures (k - 1) * a + a == k * a
  {
  }

  lemma CommittedTotal(nodes: Nodes, pods: Pods, d: Dim)
    requires Committed(nodes, pods)
    ensures Total(Taken(nodes, pods, d)) <= Total(Offered(nodes, d))
  {
    forall n | n in nodes ensures Taken(nodes, pods, d)[n] <= Offered(nodes, d)[n] {
      assert Within(nodes, pods, n);
    }
    TotalMonotone(Taken(nodes, pods, d), Offered(nodes, d));
  }

  /** The aggregate answer bounds real placement: however many identical pods the scheduler manages to place one after
      another, starting from no overcommitted node, that many fit the aggregate of the starting cluster. */
  lemma AggregateBoundsPlacement(nodes: Nodes, containers: seq<Container>, states: seq<Pods>, c: ClusterCapacity)
    requires "" !in nodes && NonNegative(containers)
    requires Placements(nodes, containers, states) && Committed(nodes, states[0])
    requires Aggregates(c, nodes, states[0])
    ensures FitsCluster(c, RequestOf(containers).amounts, |states| - 1)
  {
    var k := |states| - 1;
    PlacementsEffect(nodes, containers, states, k);
    forall d ensures FitsExtra(Remaining(c, d), Amount(RequestOf(containers).amounts, d), k) {
      RequestAmounts(containers, d);
      CommittedTotal(nodes, states[k], d);
    }
  }

  /** Hence a computed answer `max` is never beaten by the scheduler, and an answer of zero means no node can take the pod. */
  lemma AnswerBoundsPlacement(nodes: Nodes, containers: seq<Container>, states: seq<Pods>, c: ClusterCapacity, max: int)
    requires "" !in nodes && NonNegative(containers)
    requires Placements(nodes, containers, states) && Committed(nodes, states[0])
    requires Aggregates(c, nodes, states[0])
    requires forall extra: nat :: extra <= MAX_INT32 ==> (FitsCluster(c, RequestOf(containers).amounts, extra) <==> extra <= max)
    requires |states| - 1 <= MAX_INT32
    ensures |states| - 1 <= max
    ensures max == 0 ==> forall after :: !PlaceOne(nodes, states[0], containers, after)
  {
    AggregateBoundsPlacement(nodes, containers, states, c);
    if max == 0 {
      forall after ensures !PlaceOne(nodes, states[0], containers, after) {
        if PlaceOne(nodes, states[0], containers, after) {
          AggregateBoundsPlacement(nodes, containers, [states[0], after], c);
        }
      }
    }
  }
}
