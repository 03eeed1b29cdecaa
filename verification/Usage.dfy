/** Node usage recomputed from the pod listing, and the candidates built from it. */
module Usage {
  import opened Cluster
  import opened Scheduler
  import opened Sums

  type Pods = map<ObjectKey, Pod>
  type Nodes = map<string, Node>

  // ---------------------------------------------------------------- specification

  /** What one pod contributes to node `n` in dimension `d`. */
  ghost function Weight(p: Pod, n: string, d: Dim): int
  {
    if p.spec.nodeName == n then Asked(p.spec.containers, d) else 0
  }

  ghost function Load(pods: Pods, n: string, d: Dim): map<ObjectKey, int>
  {
    map k | k in pods :: Weight(pods[k], n, d)
  }

  /** The sum of the requests of the pods assigned to `n`. */
  ghost function Used(pods: Pods, n: string, d: Dim): int
  {
    Total(Load(pods, n, d))
  }

  ghost predicate PortTaken(pods: Pods, n: string, port: int)
  {
    exists k :: k in pods && pods[k].spec.nodeName == n && port in Ports(pods[k].spec.containers)
  }

  lemma UsedInsert(pods: Pods, k: ObjectKey, p: Pod, n: string, d: Dim)
    requires k !in pods
    ensures Used(pods[k := p], n, d) == Used(pods, n, d) + Weight(p, n, d)
  {
    assert Load(pods[k := p], n, d) == Load(pods, n, d)[k := Weight(p, n, d)];
    TotalInsert(Load(pods, n, d), k, Weight(p, n, d));
  }

  datatype NodeUsage = NodeUsage(amounts: ResourceList, ports: set<int>)

  /** Reading the usage map: an absent node reads as the zero value. */
  function At(usage: map<string, NodeUsage>, n: string): NodeUsage
  {
    if n in usage then usage[n] else NodeUsage(NOTHING, {})
  }

  ghost predicate UsageOf(u: NodeUsage, pods: Pods, n: string)
  {
    && (forall d :: Amount(u.amounts, d) == Used(pods, n, d))
    && (forall port :: port in u.ports <==> PortTaken(pods, n, port))
  }

  // ---------------------------------------------------------------- accumulation loops

  function Sum(a: map<string, int>, b: map<string, int>): map<string, int>
  {
    map n | n in a.Keys + b.Keys :: Count(a, n) + Count(b, n)
  }

  function Add(a: ResourceList, b: ResourceList): ResourceList
  {
    ResourceList(a.cpu + b.cpu, a.memory + b.memory, Sum(a.accelerators, b.accelerators))
  }

  lemma AmountOfAdd(a: ResourceList, b: ResourceList, d: Dim)
    ensures Amount(Add(a, b), d) == Amount(a, d) + Amount(b, d)
  {
    match d
    case Cpu =>
    case Memory =>
    case Accelerator(name) =>
      assert name in Sum(a.accelerators, b.accelerators) <==> name in a.accelerators || name in b.accelerators;
  }

  lemma SumNothing(a: map<string, int>, b: map<string, int>)
    requires b.Keys == {}
    ensures Sum(a, b) == a
  {
  }

  lemma SumNext(a: map<string, int>, b: map<string, int>, name: string, v: int)
    requires name !in b
    ensures Sum(a, b[name := v]) == Sum(a, b)[name := Count(Sum(a, b), name) + v]
  {
    var l, r := Sum(a, b[name := v]), Sum(a, b)[name := Count(Sum(a, b), name) + v];
    assert l.Keys == r.Keys;
    assert forall n :: n in l ==> l[n] == r[n];
  }

  method AddAccelerators(into: map<string, int>, more: map<string, int>) returns (out: map<string, int>)
    ensures out == Sum(into, more)
  {
    out := into;
    var order := ListKeys(more.Keys);
    SumNothing(into, Visited(more, order, 0));
    for i := 0 to |order|
      invariant out == Sum(into, Visited(more, order, i))
    {
      var name := order[i];
      VisitedNext(more, order, i);
      SumNext(into, Visited(more, order, i), name, more[name]);
      out := out[name := Count(out, name) + more[name]];
    }
    VisitedAll(more, order);
  }

  /** What a whole list of containers adds up to. */
  function RequestOf(cs: seq<Container>): Request
  {
    if cs == [] then Request(NOTHING, [])
    else
      var r := RequestOf(cs[..|cs| - 1]);
      Request(Add(r.amounts, cs[|cs| - 1].requests), r.ports + cs[|cs| - 1].ports)
  }

  lemma {:induction false} RequestAmounts(cs: seq<Container>, d: Dim)
    ensures Amount(RequestOf(cs).amounts, d) == Asked(cs, d)
    ensures RequestOf(cs).ports == Ports(cs)
  {
    if cs != [] {
      RequestAmounts(cs[..|cs| - 1], d);
      AmountOfAdd(RequestOf(cs[..|cs| - 1]).amounts, cs[|cs| - 1].requests, d);
    }
  }

  method PodResourceRequest(cs: seq<Container>) returns (r: Request)
    ensures r == RequestOf(cs)
    ensures forall d :: Amount(r.amounts, d) == Asked(cs, d)
  {
    var amounts := NOTHING;
    var ports := [];
    for i := 0 to |cs|
      invariant Request(amounts, ports) == RequestOf(cs[..i])
    {
      assert cs[..i + 1][..i] == cs[..i];
      var req := cs[i].requests;
      var accelerators := AddAccelerators(amounts.accelerators, req.accelerators);
      amounts := ResourceList(amounts.cpu + req.cpu, amounts.memory + req.memory, accelerators);
      ports := ports + cs[i].ports;
    }
    assert cs[..|cs|] == cs;
    r := Request(amounts, ports);
    forall d ensures Amount(r.amounts, d) == Asked(cs, d) {
      RequestAmounts(cs, d);
    }
  }

  /** The inner loop of `computeNodeUsage`: one pod's containers added to its node. */
  method AddContainers(u: NodeUsage, cs: seq<Container>) returns (r: NodeUsage)
    ensures forall d :: Amount(r.amounts, d) == Amount(u.amounts, d) + Asked(cs, d)
    ensures forall port :: port in r.ports <==> port in u.ports || port in Ports(cs)
  {
    r := u;
    for i := 0 to |cs|
      invariant forall d :: Amount(r.amounts, d) == Amount(u.amounts, d) + Asked(cs[..i], d)
      invariant forall port :: port in r.ports <==> port in u.ports || port in Ports(cs[..i])
    {
      assert cs[..i + 1][..i] == cs[..i];
      var req := cs[i].requests;
      var accelerators := AddAccelerators(r.amounts.accelerators, req.accelerators);
      ghost var before := r.amounts;
      var ports := AddPorts(r.ports, cs[i].ports);
      r := NodeUsage(ResourceList(r.amounts.cpu + req.cpu, r.amounts.memory + req.memory, accelerators), ports);
      forall d ensures Amount(r.amounts, d) == Amount(u.amounts, d) + Asked(cs[..i + 1], d) {
        AmountOfAdd(before, req, d);
      }
    }
    assert cs[..|cs|] == cs;
  }

  method AddPorts(into: set<int>, ports: seq<int>) returns (out: set<int>)
    ensures forall port :: port in out <==> port in into || port in ports
  {
    out := into;
    for i := 0 to |ports|
      invariant forall port :: port in out <==> port in into || port in ports[..i]
    {
      out := out + {ports[i]};
    }
  }

  lemma UsageOfEmpty(n: string)
    ensures UsageOf(NodeUsage(NOTHING, {}), map[], n)
  {
  }

  lemma PortTakenInsert(pods: Pods, k: ObjectKey, p: Pod, n: string, port: int)
    requires k !in pods
    ensures PortTaken(pods[k := p], n, port) <==>
      PortTaken(pods, n, port) || (p.spec.nodeName == n && port in Ports(p.spec.containers))
  {
    if PortTaken(pods, n, port) {
      var j :| j in pods && pods[j].spec.nodeName == n && port in Ports(pods[j].spec.containers);
      assert j in pods[k := p] && pods[k := p][j] == pods[j];
    }
    if p.spec.nodeName == n && port in Ports(p.spec.containers) {
      assert pods[k := p][k] == p;
    }
  }

  lemma UsageOfInsert(u: NodeUsage, pods: Pods, k: ObjectKey, p: Pod, n: string, v: NodeUsage)
    requires k !in pods && UsageOf(u, pods, n)
    requires p.spec.nodeName != n ==> v == u
    requires p.spec.nodeName == n ==>
      && (forall d :: Amount(v.amounts, d) == Amount(u.amounts, d) + Asked(p.spec.containers, d))
      && (forall port :: port in v.ports <==> port in u.ports || port in Ports(p.spec.containers))
    ensures UsageOf(v, pods[k := p], n)
  {
    forall d ensures Amount(v.amounts, d) == Used(pods[k := p], n, d) {
      UsedInsert(pods, k, p, n, d);
    }
    forall port ensures port in v.ports <==> PortTaken(pods[k := p], n, port) {
      PortTakenInsert(pods, k, p, n, port);
    }
  }

  /** Conservation: whatever order the pods are listed in, a node's usage is the sum of the requests on it. */
  method ComputeNodeUsage(pods: Pods) returns (usage: map<string, NodeUsage>)
    ensures forall n :: n != "" ==> UsageOf(At(usage, n), pods, n)
  {
    usage := map[];
    var all := ListKeys(pods.Keys);
    forall n ensures UsageOf(At(usage, n), Visited(pods, all, 0), n) {
      UsageOfEmpty(n);
      assert Visited(pods, all, 0) == map[];
    }
    for i := 0 to |all|
      invariant forall n :: n != "" ==> UsageOf(At(usage, n), Visited(pods, all, i), n)
    {
      var p := pods[all[i]];
      VisitedNext(pods, all, i);
      ghost var before := usage;
      var nodeName := p.spec.nodeName;
      if nodeName != "" {
        var u := AddContainers(At(usage, nodeName), p.spec.containers);
        usage := usage[nodeName := u];
      }
      forall n | n != "" ensures UsageOf(At(usage, n), Visited(pods, all, i + 1), n) {
        UsageOfInsert(At(before, n), Visited(pods, all, i), all[i], p, n, At(usage, n));
      }
    }
    VisitedAll(pods, all);
  }

  // ---------------------------------------------------------------- candidates

  ghost function EligibleNames(nodes: Nodes): set<string>
  {
    set n | n in nodes && Eligible(nodes[n])
  }

  /** A candidate reflects the stored node and the stored pods. */
  ghost predicate Reflects(c: Candidate, nodes: Nodes, pods: Pods)
  {
    && c.name in nodes && Eligible(nodes[c.name])
    && c.capacity == nodes[c.name].allocatable
    && UsageOf(NodeUsage(c.used, c.usedPorts), pods, c.name)
  }

  /** Every ready, schedulable node once, in some order. */
  ghost predicate CandidatesOf(cs: seq<Candidate>, nodes: Nodes, pods: Pods)
  {
    && (forall i :: 0 <= i < |cs| ==> Reflects(cs[i], nodes, pods))
    && (forall n :: n in EligibleNames(nodes) ==> exists i :: 0 <= i < |cs| && cs[i].name == n)
    && (forall i, j :: 0 <= i < j < |cs| ==> cs[i].name != cs[j].name)
  }

  method BuildNodeCandidates(nodes: Nodes, usage: map<string, NodeUsage>, ghost pods: Pods) returns (cs: seq<Candidate>)
    requires "" !in nodes
    requires forall n :: n != "" ==> UsageOf(At(usage, n), pods, n)
    ensures CandidatesOf(cs, nodes, pods)
  {
    cs := [];
    var all := ListKeys(nodes.Keys);
    for i := 0 to |all|
      invariant forall j :: 0 <= j < |cs| ==> Reflects(cs[j], nodes, pods) && cs[j].name in all[..i]
      invariant forall j :: 0 <= j < i && Eligible(nodes[all[j]]) ==> exists m :: 0 <= m < |cs| && cs[m].name == all[j]
      invariant forall j, m :: 0 <= j < m < |cs| ==> cs[j].name != cs[m].name
    {
      var name := all[i];
      var n := nodes[name];
      if !Eligible(n) {
        continue;
      }
      var u := At(usage, name);
      ghost var before := cs;
      cs := cs + [Candidate(name, n.allocatable, u.amounts, u.ports)];
      assert forall m :: 0 <= m < |before| ==> cs[m] == before[m];
      assert cs[|before|].name == name;
    }
  }
}
