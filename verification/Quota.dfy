/** Namespace quotas: admission over every run of the pod API. */
module Quota {
  import opened Names
  import opened Cluster
  import opened Sums
  import opened Usage

  /** Zero or less means no limit in that dimension. */
  datatype Limits = Limits(cpu: int, memory: int)

  function Limit(q: Limits, d: Dim): int
  {
    match d
    case Cpu => q.cpu
    case Memory => q.memory
    case Accelerator(_) => 0
  }

  ghost function Share(k: ObjectKey, p: Pod, namespace: string, d: Dim): int
  {
    if k.namespace == namespace then Asked(p.spec.containers, d) else 0
  }

  ghost function Shares(pods: Pods, namespace: string, d: Dim): map<ObjectKey, int>
  {
    map k | k in pods :: Share(k, pods[k], namespace, d)
  }

  /** The summed requests of the pods of one namespace. */
  ghost function NamespaceUse(pods: Pods, namespace: string, d: Dim): int
  {
    Total(Shares(pods, namespace, d))
  }

  ghost function Requests(pods: Pods, d: Dim): map<ObjectKey, int>
  {
    map k | k in pods :: Asked(pods[k].spec.containers, d)
  }

  /** What admission counts as used: the namespace, or every pod when the namespace is empty. */
  ghost function ListedUse(pods: Pods, namespace: string, d: Dim): int
  {
    if namespace == "" then Total(Requests(pods, d)) else NamespaceUse(pods, namespace, d)
  }

  ghost predicate WithinQuota(pods: Pods, q: Limits)
  {
    forall namespace, d :: Limit(q, d) > 0 ==> NamespaceUse(pods, namespace, d) <= Limit(q, d)
  }

  /** What `QuotaPolicy.Admit` checks. */
  ghost predicate Admits(pods: Pods, q: Limits, namespace: string, containers: seq<Container>, replicas: int)
  {
    forall d :: Limit(q, d) > 0 ==> ListedUse(pods, namespace, d) + Asked(containers, d) * replicas <= Limit(q, d)
  }

  // ---------------------------------------------------------------- the API

  lemma PartNext(pods: Pods, k: ObjectKey, p: Pod, d: Dim)
    requires k !in pods
    ensures Total(Requests(pods[k := p], d)) == Total(Requests(pods, d)) + Asked(p.spec.containers, d)
  {
    assert Requests(pods[k := p], d) == Requests(pods, d)[k := Asked(p.spec.containers, d)];
    TotalInsert(Requests(pods, d), k, Asked(p.spec.containers, d));
  }

  ghost function InNamespace(pods: Pods, namespace: string): Pods
  {
    map k | k in pods && (namespace == "" || k.namespace == namespace) :: pods[k]
  }

  lemma ListedUseIsSum(pods: Pods, namespace: string, d: Dim)
    ensures Total(Requests(InNamespace(pods, namespace), d)) == ListedUse(pods, namespace, d)
  {
    if namespace == "" {
      assert InNamespace(pods, namespace) == pods;
    } else {
      NamespaceSum(pods, namespace, d);
    }
  }

  lemma InNamespaceNext(pods: Pods, k: ObjectKey, p: Pod, namespace: string)
    requires k !in pods && namespace != ""
    ensures InNamespace(pods[k := p], namespace) ==
      if k.namespace == namespace then InNamespace(pods, namespace)[k := p] else InNamespace(pods, namespace)
  {
  }

  lemma {:induction false} NamespaceSum(pods: Pods, namespace: string, d: Dim)
    requires namespace != ""
    ensures Total(Requests(InNamespace(pods, namespace), d)) == NamespaceUse(pods, namespace, d)
    decreases |pods|
  {
    if pods.Keys == {} {
      TotalZero(Requests(InNamespace(pods, namespace), d));
      TotalZero(Shares(pods, namespace, d));
    } else {
      var k :| k in pods;
      var rest := pods - {k};
      NamespaceSum(rest, namespace, d);
      assert pods == rest[k := pods[k]];
      SharesInsert(rest, k, pods[k], namespace, d);
      InNamespaceNext(rest, k, pods[k], namespace);
      if k.namespace == namespace {
        PartNext(InNamespace(rest, namespace), k, pods[k], d);
      }
    }
  }

  lemma SharesInsert(pods: Pods, k: ObjectKey, p: Pod, namespace: string, d: Dim)
    requires k !in pods
    ensures NamespaceUse(pods[k := p], namespace, d) == NamespaceUse(pods, namespace, d) + Share(k, p, namespace, d)
  {
    assert Shares(pods[k := p], namespace, d) == Shares(pods, namespace, d)[k := Share(k, p, namespace, d)];
    TotalInsert(Shares(pods, namespace, d), k, Share(k, p, namespace, d));
  }

  lemma SharesUpdate(pods: Pods, k: ObjectKey, p: Pod, namespace: string, d: Dim)
    requires k in pods
    ensures NamespaceUse(pods[k := p], namespace, d) ==
      NamespaceUse(pods, namespace, d) - Share(k, pods[k], namespace, d) + Share(k, p, namespace, d)
  {
    assert Shares(pods[k := p], namespace, d) == Shares(pods, namespace, d)[k := Share(k, p, namespace, d)];
    TotalUpdate(Shares(pods, namespace, d), k, Share(k, p, namespace, d));
  }

  lemma SharesRemove(pods: Pods, k: ObjectKey, namespace: string, d: Dim)
    requires k in pods
    ensures NamespaceUse(pods - {k}, namespace, d) == NamespaceUse(pods, namespace, d) - Share(k, pods[k], namespace, d)
  {
    assert Shares(pods - {k}, namespace, d) == Shares(pods, namespace, d) - {k};
    TotalRemove(Shares(pods, namespace, d), k);
  }

  /** Admission on the fields: what the pods of the namespace ask for (all pods, for the empty one) and the request. */
  lemma AdmitsMeans(pods: Pods, q: Limits, namespace: string, containers: seq<Container>, replicas: int)
    ensures Admits(pods, q, namespace, containers, replicas) <==>
      && (q.cpu > 0 ==> Total(Requests(InNamespace(pods, namespace), Cpu)) + Asked(containers, Cpu) * replicas <= q.cpu)
      && (q.memory > 0 ==> Total(Requests(InNamespace(pods, namespace), Memory)) + Asked(containers, Memory) * replicas <= q.memory)
  {
    ListedUseIsSum(pods, namespace, Cpu);
    ListedUseIsSum(pods, namespace, Memory);
  }

  ghost function AskedIn(pods: Pods, namespace: string, d: Dim): map<ObjectKey, int>
  {
    map k | k in pods && k.namespace == namespace :: Asked(pods[k].spec.containers, d)
  }

  /** The property on the fields: the requests of the pods of each named namespace stay within the two limits. */
  lemma WithinQuotaMeans(pods: Pods, q: Limits, namespace: string)
    requires WithinQuota(pods, q) && namespace != ""
    ensures q.cpu > 0 ==> Total(AskedIn(pods, namespace, Cpu)) <= q.cpu
    ensures q.memory > 0 ==> Total(AskedIn(pods, namespace, Memory)) <= q.memory
  {
    assert Limit(q, Cpu) > 0 ==> NamespaceUse(pods, namespace, Cpu) <= Limit(q, Cpu);
    assert Limit(q, Memory) > 0 ==> NamespaceUse(pods, namespace, Memory) <= Limit(q, Memory);
    ListedUseIsSum(pods, namespace, Cpu);
    ListedUseIsSum(pods, namespace, Memory);
    assert Requests(InNamespace(pods, namespace), Cpu) == AskedIn(pods, namespace, Cpu);
    assert Requests(InNamespace(pods, namespace), Memory) == AskedIn(pods, namespace, Memory);
  }

  datatype CreateOutcome = Created | InvalidArgument | Rejected

  datatype StatusOutcome = Updated | NotFound | PermissionDenied

  class PodApi {
    var pods: Pods
    const quota: Limits

    constructor (quota: Limits)
      ensures this.quota == quota && pods == map[]
    {
      this.quota, pods := quota, map[];
    }

    /** Adds up CPU and memory of a list of containers. */
    method SumContainers(cs: seq<Container>) returns (cpu: int, memory: int)
      ensures cpu == Asked(cs, Cpu) && memory == Asked(cs, Memory)
    {
      cpu, memory := 0, 0;
      for i := 0 to |cs|
        invariant cpu == Asked(cs[..i], Cpu) && memory == Asked(cs[..i], Memory)
      {
        assert cs[..i + 1][..i] == cs[..i];
        cpu := cpu + cs[i].requests.cpu;
        memory := memory + cs[i].requests.memory;
      }
      assert cs[..|cs|] == cs;
    }

    method SumPods(existing: Pods) returns (cpu: int, memory: int)
      ensures cpu == Total(Requests(existing, Cpu)) && memory == Total(Requests(existing, Memory))
    {
      cpu, memory := 0, 0;
      var all := ListKeys(existing.Keys);
      TotalZero(Requests(Visited(existing, all, 0), Cpu));
      TotalZero(Requests(Visited(existing, all, 0), Memory));
      for i := 0 to |all|
        invariant cpu == Total(Requests(Visited(existing, all, i), Cpu))
        invariant memory == Total(Requests(Visited(existing, all, i), Memory))
      {
        VisitedNext(existing, all, i);
        PartNext(Visited(existing, all, i), all[i], existing[all[i]], Cpu);
        PartNext(Visited(existing, all, i), all[i], existing[all[i]], Memory);
        var c, m := SumContainers(existing[all[i]].spec.containers);
        cpu := cpu + c;
        memory := memory + m;
      }
      VisitedAll(existing, all);
    }

    method Admit(namespace: string, containers: seq<Container>, replicas: int) returns (ok: bool)
      ensures ok <==> Admits(pods, quota, namespace, containers, replicas)
      ensures ok <==>
        && (quota.cpu > 0 ==> Total(Requests(InNamespace(pods, namespace), Cpu)) + Asked(containers, Cpu) * replicas <= quota.cpu)
        && (quota.memory > 0 ==> Total(Requests(InNamespace(pods, namespace), Memory)) + Asked(containers, Memory) * replicas <= quota.memory)
    {
      AdmitsMeans(pods, quota, namespace, containers, replicas);
      if quota.cpu <= 0 && quota.memory <= 0 {
        return true;
      }
      var existing := map k | k in pods && (namespace == "" || k.namespace == namespace) :: pods[k];
      assert existing == InNamespace(pods, namespace);
      var usedCpu, usedMem := SumPods(existing);
      ListedUseIsSum(pods, namespace, Cpu);
      ListedUseIsSum(pods, namespace, Memory);
      var reqCpu, reqMem := SumContainers(containers);
      reqCpu := reqCpu * replicas;
      reqMem := reqMem * replicas;
      if quota.cpu > 0 && usedCpu + reqCpu > quota.cpu {
        return false;
      }
      if quota.memory > 0 && usedMem + reqMem > quota.memory {
        return false;
      }
      return true;
    }

    /** `othersAdmit` is the verdict of the other policies in the admission chain. */
    method CreatePod(key: ObjectKey, pod: Pod, othersAdmit: bool) returns (outcome: CreateOutcome)
      modifies this
      ensures outcome == InvalidArgument <==> key.name == ""
      ensures outcome == Created <==> key.name != "" && othersAdmit && Admits(old(pods), quota, key.namespace, pod.spec.containers, 1)
      ensures pods == if outcome == Created then old(pods)[key := pod] else old(pods)
    {
      if key.name == "" {
        return InvalidArgument;
      }
      var ok := Admit(key.namespace, pod.spec.containers, 1);
      if !ok || !othersAdmit {
        return Rejected;
      }
      pods := pods[key := pod];
      return Created;
    }

    method DeletePod(key: ObjectKey)
      modifies this
      ensures pods == old(pods) - {key}
    {
      pods := pods - {key};
    }

    /** A node may report status only for pods that are unassigned or assigned to it. */
    method UpdatePodStatus(key: ObjectKey, phase: Phase, message: string, callerNode: Option<string>) returns (outcome: StatusOutcome)
      modifies this
      ensures outcome == NotFound <==> key !in old(pods)
      ensures outcome == PermissionDenied <==>
        key in old(pods) && callerNode.Some? && old(pods)[key].spec.nodeName !in {"", callerNode.value}
      ensures pods == if outcome == Updated then old(pods)[key := old(pods)[key].(phase := phase, message := message)] else old(pods)
    {
      if key !in pods {
        return NotFound;
      }
      var pod := pods[key];
      if callerNode.Some? {
        if pod.spec.nodeName != "" && pod.spec.nodeName != callerNode.value {
          return PermissionDenied;
        }
      }
      pods := pods[key := pod.(phase := phase, message := message)];
      return Updated;
    }
  }

  // ---------------------------------------------------------------- the quota over every run

  ghost predicate CreateStep(pods: Pods, q: Limits, key: ObjectKey, pod: Pod, after: Pods)
  {
    Admits(pods, q, key.namespace, pod.spec.containers, 1) && after == pods[key := pod]
  }

  /** The containers together ask for no negative amount of what is limited. */
  ghost predicate Honest(q: Limits, containers: seq<Container>)
  {
    forall d :: Limit(q, d) > 0 ==> Asked(containers, d) >= 0
  }

  ghost predicate Step(pods: Pods, q: Limits, after: Pods)
  {
    || (exists key, pod :: CreateStep(pods, q, key, pod, after) && Honest(q, pod.spec.containers))
    || (exists key :: after == pods - {key})
    || (exists key, phase, message :: key in pods && after == pods[key := pods[key].(phase := phase, message := message)])
  }

  ghost predicate AllHonest(pods: Pods, q: Limits)
  {
    forall k :: k in pods ==> Honest(q, pods[k].spec.containers)
  }

  lemma ListedCovers(pods: Pods, q: Limits, namespace: string, d: Dim)
    requires AllHonest(pods, q) && Limit(q, d) > 0
    ensures 0 <= NamespaceUse(pods, namespace, d) <= ListedUse(pods, namespace, d)
  {
    TotalNonNegative(Shares(pods, namespace, d));
    if namespace == "" {
      forall k | k in pods ensures Shares(pods, namespace, d)[k] <= Requests(pods, d)[k] {
        assert Honest(q, pods[k].spec.containers);
      }
      TotalMonotone(Shares(pods, namespace, d), Requests(pods, d));
    }
  }

  lemma CreateKeepsQuota(pods: Pods, q: Limits, key: ObjectKey, pod: Pod, after: Pods)
    requires WithinQuota(pods, q) && AllHonest(pods, q)
    requires CreateStep(pods, q, key, pod, after)
    ensures WithinQuota(after, q)
  {
    forall namespace, d | Limit(q, d) > 0 ensures NamespaceUse(after, namespace, d) <= Limit(q, d) {
      assert NamespaceUse(pods, namespace, d) <= Limit(q, d);
      ListedCovers(pods, q, namespace, d);
      if key in pods {
        assert Honest(q, pods[key].spec.containers);
        SharesUpdate(pods, key, pod, namespace, d);
      } else {
        SharesInsert(pods, key, pod, namespace, d);
      }
    }
  }

  lemma DeleteKeepsQuota(pods: Pods, q: Limits, key: ObjectKey)
    requires WithinQuota(pods, q) && AllHonest(pods, q)
    ensures WithinQuota(pods - {key}, q)
  {
    if key in pods {
      var after := pods - {key};
      forall namespace, d | Limit(q, d) > 0 ensures NamespaceUse(after, namespace, d) <= Limit(q, d) {
        SharesRemove(pods, key, namespace, d);
        assert Honest(q, pods[key].spec.containers);
      }
    } else {
      assert pods - {key} == pods;
    }
  }

  lemma StatusKeepsQuota(pods: Pods, q: Limits, key: ObjectKey, pod: Pod)
    requires WithinQuota(pods, q) && key in pods && pod.spec == pods[key].spec
    ensures WithinQuota(pods[key := pod], q)
  {
    var after := pods[key := pod];
    forall namespace, d | Limit(q, d) > 0 ensures NamespaceUse(after, namespace, d) <= Limit(q, d) {
      SharesUpdate(pods, key, pod, namespace, d);
    }
  }

  lemma StepKeepsQuota(pods: Pods, q: Limits, after: Pods)
    requires WithinQuota(pods, q) && AllHonest(pods, q) && Step(pods, q, after)
    ensures WithinQuota(after, q) && AllHonest(after, q)
  {
    if exists key, pod :: CreateStep(pods, q, key, pod, after) && Honest(q, pod.spec.containers) {
      var key, pod :| CreateStep(pods, q, key, pod, after) && Honest(q, pod.spec.containers);
      CreateKeepsQuota(pods, q, key, pod, after);
    } else if exists key :: after == pods - {key} {
      var key :| after == pods - {key};
      DeleteKeepsQuota(pods, q, key);
    } else {
      var key, phase, message :| key in pods && after == pods[key := pods[key].(phase := phase, message := message)];
      StatusKeepsQuota(pods, q, key, pods[key].(phase := phase, message := message));
    }
  }

  /** Over every run of creates, overwriting creates, deletes and status updates of pods that ask for no negative amount of
      what is limited, no namespace exceeds a positive quota. */
  lemma {:induction false} QuotaHolds(states: seq<Pods>, q: Limits, j: nat)
    requires j < |states| && states[0] == map[]
    requires forall i :: 0 <= i < |states| - 1 ==> Step(states[i], q, states[i + 1])
    ensures WithinQuota(states[j], q) && AllHonest(states[j], q)
  {
    if j == 0 {
      EmptyWithinQuota(q);
    } else {
      QuotaHolds(states, q, j - 1);
      StepKeepsQuota(states[j - 1], q, states[j]);
    }
  }

  lemma EmptyWithinQuota(q: Limits)
    ensures WithinQuota(map[], q)
  {
    forall namespace, d ensures NamespaceUse(map[], namespace, d) == 0 {
      assert Shares(map[], namespace, d) == map[];
    }
  }

  // ---------------------------------------------------------------- exactly which pods the quota stands up to

  /** A pod with one container that asks for `x` of one limited resource. */
  ghost function AskPod(d: Dim, x: int): Pod
  {
    var requests := if d == Cpu then ResourceList(x, 0, map[]) else ResourceList(0, x, map[]);
    Pod(map[], PodSpec("", [Container(requests, [])], []), Pending, "")
  }

  lemma AskPodAsks(d: Dim, x: int, e: Dim)
    requires d == Cpu || d == Memory
    ensures Asked(AskPod(d, x).spec.containers, e) == if e == d then x else 0
  {
    var cs := AskPod(d, x).spec.containers;
    assert cs[..0] == [];
  }

  /** Above a limit all by itself, so that no store without negative requests admits it. */
  ghost predicate TooBig(q: Limits, containers: seq<Container>)
  {
    exists d :: Limit(q, d) > 0 && Asked(containers, d) > Limit(q, d)
  }

  lemma UseOfOne(k: ObjectKey, p: Pod, d: Dim)
    ensures NamespaceUse(map[k := p], k.namespace, d) == Asked(p.spec.containers, d)
  {
    var none: Pods := map[];
    assert Shares(none, k.namespace, d) == map[];
    SharesInsert(none, k, p, k.namespace, d);
    assert none[k := p] == map[k := p];
  }

  lemma UseOfNone(namespace: string, d: Dim)
    ensures NamespaceUse(map[], namespace, d) == 0
  {
    assert Shares(map[], namespace, d) == map[];
  }

  lemma FirstAdmitted(q: Limits, p: Pod, a: ObjectKey)
    requires !TooBig(q, p.spec.containers) && a.namespace != ""
    ensures CreateStep(map[], q, a, p, map[a := p])
  {
    var none: Pods := map[];
    forall d | Limit(q, d) > 0 ensures ListedUse(none, a.namespace, d) + Asked(p.spec.containers, d) * 1 <= Limit(q, d) {
      UseOfNone(a.namespace, d);
    }
    assert none[a := p] == map[a := p];
  }

  /** The pod that fills the quota on top of a negative request. */
  ghost function Filler(q: Limits, p: Pod, d: Dim): Pod
  {
    AskPod(d, Limit(q, d) - Asked(p.spec.containers, d))
  }

  lemma FillerAdmitted(q: Limits, p: Pod, d: Dim, a: ObjectKey, b: ObjectKey)
    requires Limit(q, d) > 0 && Asked(p.spec.containers, d) < 0 && !TooBig(q, p.spec.containers)
    requires a != b && a.namespace == b.namespace != ""
    ensures Honest(q, Filler(q, p, d).spec.containers)
    ensures CreateStep(map[a := p], q, b, Filler(q, p, d), map[a := p][b := Filler(q, p, d)])
  {
    var r := Filler(q, p, d);
    forall e ensures Asked(r.spec.containers, e) == if e == d then Limit(q, d) - Asked(p.spec.containers, d) else 0 {
      AskPodAsks(d, Limit(q, d) - Asked(p.spec.containers, d), e);
    }
    forall e | Limit(q, e) > 0 ensures ListedUse(map[a := p], b.namespace, e) + Asked(r.spec.containers, e) * 1 <= Limit(q, e) {
      UseOfOne(a, p, e);
    }
  }

  lemma FillerAloneIsOver(q: Limits, p: Pod, d: Dim, b: ObjectKey)
    requires Limit(q, d) > 0 && Asked(p.spec.containers, d) < 0
    ensures !WithinQuota(map[b := Filler(q, p, d)], q)
  {
    UseOfOne(b, Filler(q, p, d), d);
    AskPodAsks(d, Limit(q, d) - Asked(p.spec.containers, d), d);
    assert NamespaceUse(map[b := Filler(q, p, d)], b.namespace, d) > Limit(q, d);
  }

  /** Nothing checks the sign of a request. A pod asking for a negative amount admits one above the quota; deleting the
      first leaves the namespace over its limit. */
  lemma NegativeRequestBreaksQuota(q: Limits, p: Pod, d: Dim, a: ObjectKey, b: ObjectKey)
    requires Limit(q, d) > 0 && Asked(p.spec.containers, d) < 0 && !TooBig(q, p.spec.containers)
    requires a != b && a.namespace == b.namespace != ""
    ensures var r := Filler(q, p, d);
      && Honest(q, r.spec.containers)
      && CreateStep(map[], q, a, p, map[a := p])
      && CreateStep(map[a := p], q, b, r, map[a := p][b := r])
      && !WithinQuota(map[a := p][b := r] - {a}, q)
  {
    FirstAdmitted(q, p, a);
    FillerAdmitted(q, p, d, a, b);
    FillerAloneIsOver(q, p, d, b);
    assert map[a := p][b := Filler(q, p, d)] - {a} == map[b := Filler(q, p, d)];
  }

  /** Histories in which, besides honest pods, one particular pod may be created, under any keys and any number of times. */
  ghost predicate History(states: seq<Pods>, q: Limits, p: Pod)
  {
    && states != [] && states[0] == map[]
    && (forall i :: 0 <= i < |states| - 1 ==> StepWith(states[i], q, p, states[i + 1]))
  }

  ghost predicate StepWith(pods: Pods, q: Limits, p: Pod, after: Pods)
  {
    Step(pods, q, after) || exists key :: CreateStep(pods, q, key, p, after)
  }

  ghost predicate Withstands(q: Limits, p: Pod)
  {
    forall states, j: nat :: History(states, q, p) && j < |states| ==> WithinQuota(states[j], q)
  }

  lemma StepWithKeepsQuota(pods: Pods, q: Limits, p: Pod, after: Pods)
    requires WithinQuota(pods, q) && AllHonest(pods, q) && StepWith(pods, q, p, after)
    requires Honest(q, p.spec.containers) || TooBig(q, p.spec.containers)
    ensures WithinQuota(after, q) && AllHonest(after, q)
  {
    if !Step(pods, q, after) {
      var key :| CreateStep(pods, q, key, p, after);
      if d :| Limit(q, d) > 0 && Asked(p.spec.containers, d) > Limit(q, d) {
        ListedCovers(pods, q, key.namespace, d);
        assert false;
      }
    } else {
      StepKeepsQuota(pods, q, after);
    }
  }

  lemma {:induction false} HistoryKeepsQuota(states: seq<Pods>, q: Limits, p: Pod, j: nat)
    requires History(states, q, p) && j < |states|
    requires Honest(q, p.spec.containers) || TooBig(q, p.spec.containers)
    ensures WithinQuota(states[j], q) && AllHonest(states[j], q)
  {
    if j == 0 {
      EmptyWithinQuota(q);
    } else {
      HistoryKeepsQuota(states, q, p, j - 1);
      StepWithKeepsQuota(states[j - 1], q, p, states[j]);
    }
  }

  /** The quota stands up to every history with a given pod in it if and only if the pod asks for no negative amount of
      what is limited, or is too big to be admitted at all. */
  lemma QuotaWithstands(q: Limits, p: Pod)
    ensures Withstands(q, p) <==> Honest(q, p.spec.containers) || TooBig(q, p.spec.containers)
  {
    if Honest(q, p.spec.containers) || TooBig(q, p.spec.containers) {
      forall states, j: nat | History(states, q, p) && j < |states| ensures WithinQuota(states[j], q) {
        HistoryKeepsQuota(states, q, p, j);
      }
    } else {
      var d :| Limit(q, d) > 0 && Asked(p.spec.containers, d) < 0;
      BreakingHistory(q, p, d);
    }
  }

  lemma BreakingHistory(q: Limits, p: Pod, d: Dim)
    requires Limit(q, d) > 0 && Asked(p.spec.containers, d) < 0 && !TooBig(q, p.spec.containers)
    ensures !Withstands(q, p)
  {
    var a, b := ObjectKey("n", "a"), ObjectKey("n", "b");
    NegativeRequestBreaksQuota(q, p, d, a, b);
    ThreeSteps(q, p, map[a := p], map[a := p][b := Filler(q, p, d)], map[a := p][b := Filler(q, p, d)] - {a});
  }

  lemma ThreeSteps(q: Limits, p: Pod, one: Pods, two: Pods, three: Pods)
    requires StepWith(map[], q, p, one) && StepWith(one, q, p, two) && StepWith(two, q, p, three)
    requires !WithinQuota(three, q)
    ensures !Withstands(q, p)
  {
    var states := [map[], one, two, three];
    assert History(states, q, p) && states[3] == three;
  }
}
