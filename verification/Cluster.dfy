/** The objects the controllers read and write, reduced to the fields they use. */
module Cluster {
  import opened Names

  /** Namespace and name: the identity of every stored object. */
  datatype ObjectKey = ObjectKey(namespace: string, name: string)

  /** One schedulable resource. Every accelerator name is a dimension of its own. */
  datatype Dim = Cpu | Memory | Accelerator(name: string)

  datatype ResourceList = ResourceList(cpu: int, memory: int, accelerators: map<string, int>)

  const NOTHING := ResourceList(0, 0, map[])

  /** Reading a Go map: an absent key reads as zero. */
  function Count(m: map<string, int>, name: string): int
  {
    if name in m then m[name] else 0
  }

  function Amount(r: ResourceList, d: Dim): int
  {
    match d
    case Cpu => r.cpu
    case Memory => r.memory
    case Accelerator(name) => Count(r.accelerators, name)
  }

  datatype Container = Container(requests: ResourceList, ports: seq<int>)

  datatype PodSpec = PodSpec(nodeName: string, containers: seq<Container>, mounts: seq<string>)

  datatype Phase = Unspecified | Pending | Running | Succeeded | Failed | Unknown

  datatype Pod = Pod(labels: map<string, string>, spec: PodSpec, phase: Phase, message: string)

  const OWNER_LABEL := "nimbuscore.io/owner-deployment"

  /** The deployment named by the owner label; the empty string when there is no label. */
  function Owner(labels: map<string, string>): string
  {
    if OWNER_LABEL in labels then labels[OWNER_LABEL] else ""
  }

  datatype Node = Node(ready: bool, unschedulable: bool, allocatable: ResourceList)

  predicate Eligible(n: Node) { n.ready && !n.unschedulable }

  datatype Volume = Volume(nodeName: string, labels: map<string, string>)

  datatype DeploymentStatus = DeploymentStatus(replicas: int, readyReplicas: int)

  type int32 = x: int | -MAX_INT32 - 1 <= x <= MAX_INT32

  datatype Deployment = Deployment(
    key: ObjectKey, replicas: int32, selector: map<string, string>, template: PodSpec,
    minReplicas: int32, maxReplicas: int32, status: DeploymentStatus)

  /** What a list of containers asks for in one dimension. */
  function Asked(cs: seq<Container>, d: Dim): int
  {
    if cs == [] then 0 else Asked(cs[..|cs| - 1], d) + Amount(cs[|cs| - 1].requests, d)
  }

  /** The container ports of a list of containers, in order. */
  function Ports(cs: seq<Container>): seq<int>
  {
    if cs == [] then [] else Ports(cs[..|cs| - 1]) + cs[|cs| - 1].ports
  }

  /** Requests and ports of two lists of containers put together; one container asks for its own. */
  lemma {:induction false} AskedConcat(a: seq<Container>, b: seq<Container>, d: Dim)
    ensures Asked(a + b, d) == Asked(a, d) + Asked(b, d)
    ensures Ports(a + b) == Ports(a) + Ports(b)
  {
    if b == [] {
      assert a + b == a;
    } else {
      var n := |b| - 1;
      assert (a + b)[..|a + b| - 1] == a + b[..n];
      AskedConcat(a, b[..n], d);
      assert Ports(a) + Ports(b[..n]) + b[n].ports == Ports(a) + (Ports(b[..n]) + b[n].ports);
    }
  }

  lemma AskedOne(c: Container)
    ensures Asked([c], Cpu) == c.requests.cpu && Asked([c], Memory) == c.requests.memory
    ensures forall name :: Asked([c], Accelerator(name)) == if name in c.requests.accelerators then c.requests.accelerators[name] else 0
    ensures Ports([c]) == c.ports
  {
    assert [c][..0] == [];
  }

  predicate NonNegative(cs: seq<Container>)
  {
    forall i :: 0 <= i < |cs| ==> NonNegativeList(cs[i].requests)
  }

  predicate NonNegativeList(r: ResourceList)
  {
    && r.cpu >= 0 && r.memory >= 0
    && (forall n <- r.accelerators :: r.accelerators[n] >= 0)
  }

  lemma {:induction false} AskedNonNegative(cs: seq<Container>, d: Dim)
    requires NonNegative(cs)
    ensures Asked(cs, d) >= 0
  {
    if cs != [] {
      AskedNonNegative(cs[..|cs| - 1], d);
      assert NonNegativeList(cs[|cs| - 1].requests);
    }
  }
}
