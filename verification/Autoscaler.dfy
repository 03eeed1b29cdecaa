/** internal/controller/hpa.go: the replica count that memory use asks for, within the bounds and the free capacity. */
module Autoscaler {
  import opened Names
  import opened Cluster
  import opened Sums
  import opened Usage
  import opened Reconcile
  import opened Capacity

  /** `extra` more replicas fit the aggregate free amount of the ready, schedulable nodes. */
  ghost predicate FitsFree(nodes: Nodes, pods: Pods, containers: seq<Container>, extra: nat)
  {
    forall d :: FitsExtra(Total(Offered(nodes, d)) - Total(Taken(nodes, pods, d)), Asked(containers, d), extra)
  }

  /** `t` is the largest count between `current` and `desired` whose extra replicas fit. */
  ghost predicate LargestFit(nodes: Nodes, pods: Pods, containers: seq<Container>, current: int, desired: int, t: int)
  {
    && current <= t <= desired
    && (forall extra: nat :: extra <= desired - current ==> (FitsFree(nodes, pods, containers, extra) <==> current + extra <= t))
  }

  function Min(d: Deployment): int
  {
    if d.minReplicas <= 0 then 1 else d.minReplicas
  }

  /** The raw count raised to the minimum, then lowered to the maximum. */
  function Clamped(d: Deployment, raw: int): int
  {
    var atLeast := if raw < Min(d) then Min(d) else raw;
    if atLeast > d.maxReplicas then d.maxReplicas else atLeast
  }

  function CurrentReplicas(d: Deployment, running: int): int
  {
    if d.replicas <= 0 then running else d.replicas
  }

  /** The replica count the autoscaler settles on. */
  ghost predicate Target(d: Deployment, nodes: Nodes, pods: Pods, running: int, raw: int, t: int)
  {
    var current, desired := CurrentReplicas(d, running), Clamped(d, raw);
    if desired > current then LargestFit(nodes, pods, d.template.containers, current, desired, t) else t == desired
  }

  predicate Active(d: Deployment)
  {
    && d.maxReplicas > 0
    && d.template.containers != [] && d.template.containers[0].requests.memory > 0
  }

  // ---------------------------------------------------------------- the count that memory use asks for

  /** Memory use reported per pod; an absent report reads as zero. */
  function Report(memory: map<ObjectKey, int>, k: ObjectKey): int
  {
    if k in memory then memory[k] else 0
  }

  ghost function MemoryOf(keys: set<ObjectKey>, memory: map<ObjectKey, int>): map<ObjectKey, int>
  {
    map k | k in keys :: Report(memory, k)
  }

  /** Memory use in units of the target. */
  ghost function Utilisation(keys: set<ObjectKey>, memory: map<ObjectKey, int>, target: int): real
    requires target > 0
  {
    Total(MemoryOf(keys, memory)) as real / target as real
  }

  lemma UtilisationNext(keys: set<ObjectKey>, memory: map<ObjectKey, int>, k: ObjectKey, target: int)
    requires k !in keys && target > 0
    ensures Utilisation(keys + {k}, memory, target) == Utilisation(keys, memory, target) + Report(memory, k) as real / target as real
  {
    assert MemoryOf(keys + {k}, memory) == MemoryOf(keys, memory)[k := Report(memory, k)];
    TotalInsert(MemoryOf(keys, memory), k, Report(memory, k));
    DivideSum(Total(MemoryOf(keys, memory)) as real, Report(memory, k) as real, target as real);
  }

  lemma UtilisationNone(memory: map<ObjectKey, int>, target: int)
    requires target > 0
    ensures Utilisation({}, memory, target) == 0.0
  {
    TotalZero(MemoryOf({}, memory));
  }

  lemma DivideSum(a: real, b: real, t: real)
    requires t > 0.0
    ensures (a + b) / t == a / t + b / t
  {
  }

  /** The running pods of the deployment among those visited so far. */
  ghost function RunningAmong(d: Deployment, pods: Pods, done: set<ObjectKey>): set<ObjectKey>
  {
    set k | k in done && k in pods && IsOwned(d, k, pods[k]) && pods[k].phase == Running
  }

  lemma RunningNext(d: Deployment, pods: Pods, done: set<ObjectKey>, k: ObjectKey)
    requires k in pods && k !in done
    ensures k !in RunningAmong(d, pods, done)
    ensures RunningAmong(d, pods, done + {k}) ==
      RunningAmong(d, pods, done) + if IsOwned(d, k, pods[k]) && pods[k].phase == Running then {k} else {}
  {
  }

  ghost predicate Measured(d: Deployment, pods: Pods, memory: map<ObjectKey, int>, target: int, done: set<ObjectKey>, total: real, running: nat)
    requires target > 0
  {
    running == |RunningAmong(d, pods, done)| && total == Utilisation(RunningAmong(d, pods, done), memory, target)
  }

  lemma MeasureNone(d: Deployment, pods: Pods, memory: map<ObjectKey, int>, target: int)
    requires target > 0
    ensures Measured(d, pods, memory, target, {}, 0.0, 0)
  {
    assert RunningAmong(d, pods, {}) == {};
    UtilisationNone(memory, target);
  }

  lemma MeasureAll(d: Deployment, pods: Pods, memory: map<ObjectKey, int>, target: int, total: real, running: nat)
    requires target > 0 && Measured(d, pods, memory, target, (set k | k in pods && InScope(d, k)), total, running)
    ensures running == |RunningPods(d, pods)| && total == Utilisation(RunningPods(d, pods), memory, target)
  {
    assert RunningAmong(d, pods, set k | k in pods && InScope(d, k)) == RunningPods(d, pods);
  }

  lemma MeasureNext(d: Deployment, pods: Pods, memory: map<ObjectKey, int>, target: int, done: set<ObjectKey>, total: real, running: nat, k: ObjectKey)
    requires k in pods && k !in done && target > 0
    requires Measured(d, pods, memory, target, done, total, running)
    ensures if IsOwned(d, k, pods[k]) && pods[k].phase == Running
      then Measured(d, pods, memory, target, done + {k}, total + Report(memory, k) as real / target as real, running + 1)
      else Measured(d, pods, memory, target, done + {k}, total, running)
  {
    RunningNext(d, pods, done, k);
    if IsOwned(d, k, pods[k]) && pods[k].phase == Running {
      UtilisationNext(RunningAmong(d, pods, done), memory, k, target);
    }
  }

  function Ceil(x: real): (n: int)
    ensures (n - 1) as real < x <= n as real
  {
    -((-x).Floor)
  }

  function TargetMemory(d: Deployment): int
    requires d.template.containers != []
  {
    d.template.containers[0].requests.memory
  }

  /** With `n` replicas in place of `current`, the average use per running pod would be within the target. */
  predicate Covers(current: int, running: int, inUse: int, target: int, n: int)
  {
    current * inUse <= n * (target * running)
  }

  /** The least count that brings the average use down to the target. */
  predicate LeastCover(current: int, running: int, inUse: int, target: int, n: int)
  {
    Covers(current, running, inUse, target, n) && !Covers(current, running, inUse, target, n - 1)
  }

  lemma ProductBound(x: real, b: real, n: real)
    requires b > 0.0
    ensures x / b <= n <==> x <= n * b
  {
    var q := x / b;
    assert x == q * b;
    if q <= n {
      assert (n - q) * b >= 0.0;
    } else {
      assert (q - n) * b > 0.0;
    }
  }

  lemma UtilisationIsQuotient(current: real, running: real, inUse: real, target: real)
    requires running > 0.0 && target > 0.0
    ensures target * running > 0.0
    ensures current * (inUse / target / running) == current * inUse / (target * running)
  {
    var a := inUse / target;
    var b := a / running;
    assert inUse == a * target && a == b * running;
    assert inUse == b * (target * running);
    assert current * inUse == current * b * (target * running);
  }

  /** The average utilisation of the running pods, scaled to the current count and rounded up. */
  function ScaledCount(current: int, running: int, total: real): int
    requires running > 0
  {
    Ceil(current as real * (total / running as real))
  }

  /** The count before clamping, if it is a 32-bit number. */
  ghost predicate Raw(d: Deployment, pods: Pods, memory: map<ObjectKey, int>, raw: int32)
    requires Active(d) && RunningPods(d, pods) != {}
  {
    var running := |RunningPods(d, pods)|;
    var n := ScaledCount(CurrentReplicas(d, running), running, Utilisation(RunningPods(d, pods), memory, TargetMemory(d)));
    -MAX_INT32 - 1 <= n <= MAX_INT32 ==> raw == n
  }

  lemma CeilIsLeastCover(current: int, running: int, inUse: int, target: int)
    requires running > 0 && target > 0
    ensures LeastCover(current, running, inUse, target, ScaledCount(current, running, inUse as real / target as real))
  {
    var x, b := (current * inUse) as real, (target * running) as real;
    var c := current as real * (inUse as real / target as real / running as real);
    UtilisationIsQuotient(current as real, running as real, inUse as real, target as real);
    assert c == x / b;
    var n := ScaledCount(current, running, inUse as real / target as real);
    ProductBound(x, b, n as real);
    ProductBound(x, b, (n - 1) as real);
    assert (n * (target * running)) as real == n as real * b;
    assert ((n - 1) * (target * running)) as real == (n - 1) as real * b;
  }

  lemma LeastCoverUnique(current: int, running: int, inUse: int, target: int, m: int, n: int)
    requires running > 0 && target > 0
    requires LeastCover(current, running, inUse, target, m) && LeastCover(current, running, inUse, target, n)
    ensures m == n
  {
    var b := target * running;
    if m < n {
      CoversMore(current, running, inUse, target, m, n - 1);
    } else if n < m {
      CoversMore(current, running, inUse, target, n, m - 1);
    }
  }

  lemma CoversMore(current: int, running: int, inUse: int, target: int, m: int, n: int)
    requires running > 0 && target > 0 && m <= n && Covers(current, running, inUse, target, m)
    ensures Covers(current, running, inUse, target, n)
  {
    var b := target * running;
    assert b > 0 && (n - m) * b >= 0;
    assert n * b == m * b + (n - m) * b;
  }

  /** The utilisation-based count is the least one that brings the average use per running pod down to the target. */
  lemma ScaledCountIsLeast(current: int, running: int, inUse: int, target: int, n: int)
    requires running > 0 && target > 0
    ensures n == ScaledCount(current, running, inUse as real / target as real) <==> LeastCover(current, running, inUse, target, n)
  {
    var m := ScaledCount(current, running, inUse as real / target as real);
    CeilIsLeastCover(current, running, inUse, target);
    if LeastCover(current, running, inUse, target, n) {
      LeastCoverUnique(current, running, inUse, target, m, n);
    }
  }

  lemma FitsFreeIsFitsCluster(c: ClusterCapacity, nodes: Nodes, pods: Pods, containers: seq<Container>, extra: nat)
    requires Aggregates(c, nodes, pods)
    ensures FitsFree(nodes, pods, containers, extra) <==> FitsCluster(c, RequestOf(containers).amounts, extra)
  {
    forall d
      ensures FitsExtra(Total(Offered(nodes, d)) - Total(Taken(nodes, pods, d)), Asked(containers, d), extra)
        <==> FitsExtra(Remaining(c, d), Amount(RequestOf(containers).amounts, d), extra)
    {
      RequestAmounts(containers, d);
    }
  }

  class HorizontalAutoscaler {
    var pods: Pods
    var nodes: Nodes
    var deployments: Deployments
    var memory: map<ObjectKey, int>

    constructor (pods: Pods, nodes: Nodes, deployments: Deployments, memory: map<ObjectKey, int>)
      ensures this.pods == pods && this.nodes == nodes && this.deployments == deployments && this.memory == memory
    {
      this.pods, this.nodes, this.deployments, this.memory := pods, nodes, deployments, memory;
    }

    /** Lowers `desired` to what the cluster's free capacity admits, never below `current` and without 32-bit wrap-around. */
    method CapToClusterCapacity(d: Deployment, current: int32, desired: int32) returns (capped: int32, shortfall: int32)
      requires "" !in nodes
      requires 0 <= current < desired
      ensures LargestFit(nodes, pods, d.template.containers, current, desired, capped)
      ensures shortfall == desired - capped >= 0
    {
      var usage := ComputeNodeUsage(pods);
      var capacity := ComputeClusterCapacity(nodes, usage, pods);
      var request := PodResourceRequest(d.template.containers);
      var maxAdditional := MaxAdditionalReplicas(capacity, request.amounts);
      forall extra: nat | extra <= desired - current
        ensures FitsFree(nodes, pods, d.template.containers, extra) <==> extra <= maxAdditional
      {
        FitsFreeIsFitsCluster(capacity, nodes, pods, d.template.containers, extra);
      }
      var wantAdditional: int32 := desired - current;
      if wantAdditional <= maxAdditional {
        return desired, 0;
      }
      capped := current + maxAdditional;
      if capped < current {
        capped := current;
      }
      shortfall := desired - capped;
    }

    /** Adds up the utilisation of the running pods and counts them. */
    method MeasureRunning(d: Deployment, target: int) returns (total: real, running: nat)
      requires target > 0
      ensures running == |RunningPods(d, pods)| && total == Utilisation(RunningPods(d, pods), memory, target)
    {
      total, running := 0.0, 0;
      ghost var scope := set k | k in pods && InScope(d, k);
      ghost var done: set<ObjectKey> := {};
      var all := ListKeys(set k | k in pods && InScope(d, k));
      MeasureNone(d, pods, memory, target);
      for i := 0 to |all|
        invariant done <= scope
        invariant forall j :: 0 <= j < |all| ==> (all[j] in done <==> j < i)
        invariant Measured(d, pods, memory, target, done, total, running)
      {
        var k := all[i];
        total, running := MeasureOne(d, target, k, total, running, done);
        done := done + {k};
      }
      assert done == scope;
      MeasureAll(d, pods, memory, target, total, running);
    }

    /** The loop body: pods of other deployments and pods that are not running are skipped. */
    method MeasureOne(d: Deployment, target: int, k: ObjectKey, total: real, running: nat, ghost done: set<ObjectKey>)
      returns (total': real, running': nat)
      requires target > 0 && k in pods && k !in done && InScope(d, k)
      requires Measured(d, pods, memory, target, done, total, running)
      ensures Measured(d, pods, memory, target, done + {k}, total', running')
    {
      MeasureNext(d, pods, memory, target, done, total, running, k);
      if Owner(pods[k].labels) != d.key.name {
        return total, running;
      }
      if pods[k].phase != Running {
        return total, running;
      }
      return total + Report(memory, k) as real / target as real, running + 1;
    }

    /** The utilisation-based count. What a conversion to 32 bits does with a number that does not fit is unspecified. */
    method DesiredCount(d: Deployment, current: int32, total: real, running: nat) returns (raw: int32)
      requires Active(d) && running == |RunningPods(d, pods)| > 0 && current == CurrentReplicas(d, running)
      requires total == Utilisation(RunningPods(d, pods), memory, TargetMemory(d))
      ensures Raw(d, pods, memory, raw)
    {
      var n := ScaledCount(current, running, total);
      if -MAX_INT32 - 1 <= n <= MAX_INT32 {
        raw := n;
      } else {
        raw := *;
      }
    }

    /** Clamps a count to the bounds and, when it is a scale-up, to the free capacity. */
    method Clamp(d: Deployment, running: nat, current: int32, raw: int32) returns (desired: int32)
      requires "" !in nodes && Active(d)
      requires running > 0 && current == CurrentReplicas(d, running)
      ensures Target(d, nodes, pods, running, raw, desired)
    {
      var minReplicas: int32 := d.minReplicas;
      if minReplicas <= 0 {
        minReplicas := 1;
      }
      desired := raw;
      if desired < minReplicas {
        desired := minReplicas;
      }
      if desired > d.maxReplicas {
        desired := d.maxReplicas;
      }
      if desired > current {
        var capped, shortfall := CapToClusterCapacity(d, current, desired);
        desired := capped;
      }
    }

    /** One pass. */
    method ReconcileOne(d: Deployment) returns (found: bool)
      requires "" !in nodes
      requires |pods| <= MAX_INT32
      modifies this`deployments
      ensures RunningPods(d, pods) == {} ==> deployments == old(deployments) && found
      ensures d.maxReplicas <= 0 || d.template.containers == [] || d.template.containers[0].requests.memory <= 0 ==>
        deployments == old(deployments) && found
      ensures deployments.Keys == old(deployments).Keys
      ensures forall k :: k in old(deployments) && k != d.key ==> deployments[k] == old(deployments)[k]
      ensures d.key in old(deployments) ==> deployments[d.key] == old(deployments)[d.key].(replicas := deployments[d.key].replicas)
      ensures d.maxReplicas > 0 && |d.template.containers| > 0 && d.template.containers[0].requests.memory > 0 && RunningPods(d, pods) != {} ==>
        exists raw: int32, t: int32 ::
        && Raw(d, pods, memory, raw)
        && Target(d, nodes, pods, |RunningPods(d, pods)|, raw, t)
        && Scaled(d, t, old(deployments), found, deployments)
    {
      if d.maxReplicas <= 0 {
        return true;
      }
      var containers := d.template.containers;
      if |containers| == 0 {
        return true;
      }
      var targetMemory := containers[0].requests.memory;
      if targetMemory <= 0 {
        return true;
      }
      var total, running := MeasureRunning(d, targetMemory);
      if running == 0 {
        return true;
      }
      RunningFew(d, pods);
      var currentReplicas: int32 := d.replicas;
      if currentReplicas <= 0 {
        currentReplicas := running;
      }
      var raw := DesiredCount(d, currentReplicas, total, running);
      var desired := Clamp(d, running, currentReplicas, raw);
      if desired == d.replicas {
        return true;
      }
      if d.key !in deployments {
        return false;
      }
      deployments := deployments[d.key := deployments[d.key].(replicas := desired)];
      assert Raw(d, pods, memory, raw);
      assert Target(d, nodes, pods, |RunningPods(d, pods)|, raw, desired);
      assert Scaled(d, desired, old(deployments), true, deployments);
      return true;
    }
  }

  /** The stored deployment gets the new count, unless it has it already or is gone. */
  ghost predicate Scaled(d: Deployment, t: int32, before: Deployments, found: bool, after: Deployments)
  {
    && (found <==> t == d.replicas || d.key in before)
    && after == if t == d.replicas || !found then before else before[d.key := before[d.key].(replicas := t)]
  }

  lemma RunningFew(d: Deployment, pods: Pods)
    ensures |RunningPods(d, pods)| <= |pods|
  {
    assert pods.Keys == RunningPods(d, pods) + (pods.Keys - RunningPods(d, pods));
  }

  /** The target never exceeds the maximum, scaling up never lowers the count, and a scale-up stops exactly where one
      more replica would no longer fit. */
  lemma TargetBounds(d: Deployment, nodes: Nodes, pods: Pods, running: int, raw: int, t: int)
    requires Active(d) && running > 0
    requires Target(d, nodes, pods, running, raw, t)
    ensures t <= d.maxReplicas
    ensures t >= 1
    ensures Clamped(d, raw) > CurrentReplicas(d, running) ==> t >= CurrentReplicas(d, running)
    ensures CurrentReplicas(d, running) <= t < Clamped(d, raw) ==>
      !FitsFree(nodes, pods, d.template.containers, t + 1 - CurrentReplicas(d, running))
  {
    var current := CurrentReplicas(d, running);
    if current <= t < Clamped(d, raw) {
      var extra: nat := t + 1 - current;
      assert FitsFree(nodes, pods, d.template.containers, extra) <==> current + extra <= t;
    }
  }

  /** The target on the fields, for consistent bounds: the raw count between the bounds is not moved by them; one below is
      raised to the minimum (one, if there is none) and one above lowered to the maximum; and only the free capacity may
      keep a scale-up short of that, never below the current count. */
  lemma TargetMeans(d: Deployment, nodes: Nodes, pods: Pods, running: int, raw: int, t: int)
    requires Active(d) && running > 0 && d.minReplicas <= d.maxReplicas
    requires Target(d, nodes, pods, running, raw, t)
    ensures var current := if d.replicas > 0 then d.replicas else running;
      var low := if d.minReplicas > 0 then d.minReplicas else 1;
      var wanted := if low <= raw <= d.maxReplicas then raw else if raw < low then low else d.maxReplicas;
      if wanted <= current then t == wanted
      else
        && current <= t <= wanted && FitsFree(nodes, pods, d.template.containers, t - current)
        && (t < wanted ==> !FitsFree(nodes, pods, d.template.containers, t + 1 - current))
    ensures t >= d.minReplicas || t >= (if d.replicas > 0 then d.replicas else running)
  {
    var current := CurrentReplicas(d, running);
    var wanted := Clamped(d, raw);
    if wanted > current {
      var extra: nat := t - current;
      assert FitsFree(nodes, pods, d.template.containers, extra) <==> current + extra <= t;
      if t < wanted {
        var more: nat := t + 1 - current;
        assert FitsFree(nodes, pods, d.template.containers, more) <==> current + more <= t;
      }
    }
  }

  /** When the bounds contradict each other the maximum wins. */
  lemma MaximumWins(d: Deployment, nodes: Nodes, pods: Pods, running: int, raw: int, t: int)
    requires Active(d) && running > 0 && d.minReplicas > d.maxReplicas
    requires Target(d, nodes, pods, running, raw, t)
    ensures t <= d.maxReplicas
    ensures d.maxReplicas <= (if d.replicas > 0 then d.replicas else running) ==> t == d.maxReplicas
  {
  }

  /** What fits, on the fields of nodes and pods. */
  lemma FitsFreeMeans(nodes: Nodes, pods: Pods, containers: seq<Container>, extra: nat)
    ensures FitsFree(nodes, pods, containers, extra) <==>
      forall d :: Asked(containers, d) > 0 && extra > 0 ==>
        extra * Asked(containers, d) <= Total(Open(nodes, d)) - Total(Busy(nodes, pods, d))
  {
    forall d ensures Total(Offered(nodes, d)) == Total(Open(nodes, d)) && Total(Taken(nodes, pods, d)) == Total(Busy(nodes, pods, d)) {
      OfferedMeans(nodes, d);
      TakenMeans(nodes, pods, d);
    }
    forall d
      ensures FitsExtra(Total(Offered(nodes, d)) - Total(Taken(nodes, pods, d)), Asked(containers, d), extra) <==>
        (Asked(containers, d) > 0 && extra > 0 ==> extra * Asked(containers, d) <= Total(Open(nodes, d)) - Total(Busy(nodes, pods, d)))
    {
    }
  }

  /** The raw count on the fields: the least count that brings the average memory use of the owned running pods down to what
      the first container asks for. */
  lemma RawMeans(d: Deployment, pods: Pods, memory: map<ObjectKey, int>, raw: int32, n: int32)
    requires Active(d) && RunningPods(d, pods) != {} && Raw(d, pods, memory, raw)
    requires var owned := set k | k in Mine(d, pods) && pods[k].phase == Running;
      LeastCover(if d.replicas > 0 then d.replicas else |owned|, |owned|,
                 Total(map k | k in owned :: if k in memory then memory[k] else 0),
                 d.template.containers[0].requests.memory, n)
    ensures raw == n
  {
    var owned := set k | k in Mine(d, pods) && pods[k].phase == Running;
    assert owned == RunningPods(d, pods);
    assert MemoryOf(owned, memory) == map k | k in owned :: if k in memory then memory[k] else 0;
    var running := |owned|;
    ScaledCountIsLeast(CurrentReplicas(d, running), running, Total(MemoryOf(owned, memory)), TargetMemory(d), n);
  }

  /** What is written: a stored deployment ends with the target count, whenever that differs from the count it was listed
      with. */
  lemma ScaledMeans(d: Deployment, t: int32, before: Deployments, found: bool, after: Deployments)
    requires Scaled(d, t, before, found, after)
    ensures d.key in before && t != d.replicas ==> found && d.key in after && after[d.key].replicas == t
    ensures t == d.replicas ==> found && after == before
    ensures d.key !in before ==> after == before && (found <==> t == d.replicas)
  {
  }

  /** The target is a function of the cluster: the largest fit is unique. */
  lemma TargetUnique(d: Deployment, nodes: Nodes, pods: Pods, running: int, raw: int, t: int, u: int)
    requires Target(d, nodes, pods, running, raw, t) && Target(d, nodes, pods, running, raw, u)
    ensures t == u
  {
    var current, desired := CurrentReplicas(d, running), Clamped(d, raw);
    if desired > current {
      var x: nat, y: nat := t - current, u - current;
      assert FitsFree(nodes, pods, d.template.containers, x) <==> current + x <= u;
      assert FitsFree(nodes, pods, d.template.containers, y) <==> current + y <= t;
    }
  }
}
