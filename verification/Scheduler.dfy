/** internal/scheduler: choosing a node for one pod. */
module Scheduler {
  import opened Names
  import opened Cluster
  import opened Sums

  datatype Candidate = Candidate(name: string, capacity: ResourceList, used: ResourceList, usedPorts: set<int>)

  datatype Request = Request(amounts: ResourceList, ports: seq<int>)

  function Free(c: Candidate, d: Dim): int
  {
    Amount(c.capacity, d) - Amount(c.used, d)
  }

  function Score(c: Candidate): int
  {
    Free(c, Cpu) + Free(c, Memory)
  }

  /** CPU and memory are always compared; an accelerator only when a positive count is asked for. */
  ghost predicate FitsDim(c: Candidate, r: Request, d: Dim)
  {
    (d.Accelerator? && Amount(r.amounts, d) <= 0) || Amount(r.amounts, d) <= Free(c, d)
  }

  ghost predicate FitsPorts(c: Candidate, r: Request)
  {
    forall i :: 0 <= i < |r.ports| ==> r.ports[i] !in c.usedPorts
  }

  ghost predicate Fits(c: Candidate, r: Request)
  {
    && (forall d: Dim :: FitsDim(c, r, d))
    && FitsPorts(c, r)
  }

  /** A node the loop can select: it fits and its score beats the initial -1. */
  ghost predicate Viable(c: Candidate, r: Request)
  {
    Fits(c, r) && Score(c) >= 0
  }

  /** The first viable candidate whose free CPU plus memory no other viable candidate exceeds. */
  ghost predicate Best(cs: seq<Candidate>, r: Request, i: int)
  {
    && 0 <= i < |cs|
    && Viable(cs[i], r)
    && (forall j :: 0 <= j < |cs| && Viable(cs[j], r) ==> Score(cs[j]) <= Score(cs[i]))
    && (forall j :: 0 <= j < i && Viable(cs[j], r) ==> Score(cs[j]) < Score(cs[i]))
  }

  /** The placement decision as a function of the candidates and the request. */
  ghost function Choice(cs: seq<Candidate>, r: Request): Option<string>
  {
    if exists i :: Best(cs, r, i) then
      var i :| Best(cs, r, i);
      Some(cs[i].name)
    else None
  }

  lemma BestUnique(cs: seq<Candidate>, r: Request, i: int, j: int)
    requires Best(cs, r, i) && Best(cs, r, j)
    ensures i == j
  {
    assert Viable(cs[i], r) && Viable(cs[j], r);
    assert Score(cs[i]) == Score(cs[j]);
  }

  /** The decision is well defined: at most one index is best. */
  lemma ChoiceIs(cs: seq<Candidate>, r: Request, i: int)
    requires Best(cs, r, i)
    ensures Choice(cs, r) == Some(cs[i].name)
  {
    var j :| Best(cs, r, j) && Choice(cs, r) == Some(cs[j].name);
    BestUnique(cs, r, i, j);
  }

  lemma ChoiceNone(cs: seq<Candidate>, r: Request)
    requires forall i :: 0 <= i < |cs| ==> !Viable(cs[i], r)
    ensures Choice(cs, r) == None
  {
    assert forall i :: Best(cs, r, i) ==> 0 <= i < |cs|;
  }

  lemma {:induction false} ViableHasBest(cs: seq<Candidate>, r: Request)
    requires exists i :: 0 <= i < |cs| && Viable(cs[i], r)
    ensures exists i :: Best(cs, r, i)
  {
    var n := |cs| - 1;
    var front := cs[..n];
    if j :| 0 <= j < n && Viable(cs[j], r) {
      assert Viable(front[j], r);
      ViableHasBest(front, r);
      var b :| Best(front, r, b);
      assert forall m :: 0 <= m < n ==> front[m] == cs[m];
      if Viable(cs[n], r) && Score(cs[n]) > Score(cs[b]) {
        assert Best(cs, r, n);
      } else {
        assert Best(cs, r, b);
      }
    } else {
      assert Best(cs, r, n);
    }
  }

  /** With non-negative requests the score test never rejects a node that fits. */
  lemma FitsIsViable(c: Candidate, r: Request)
    requires r.amounts.cpu >= 0 && r.amounts.memory >= 0
    ensures Fits(c, r) <==> Viable(c, r)
  {
    if Fits(c, r) {
      assert FitsDim(c, r, Cpu) && FitsDim(c, r, Memory);
    }
  }

  method AcceleratorsFit(requested: map<string, int>, capacity: map<string, int>, used: map<string, int>) returns (ok: bool)
    ensures ok <==> forall name <- requested :: requested[name] <= 0 || requested[name] <= Count(capacity, name) - Count(used, name)
  {
    var order := ListKeys(requested.Keys);
    for i := 0 to |order|
      invariant forall j :: 0 <= j < i ==>
        requested[order[j]] <= 0 || requested[order[j]] <= Count(capacity, order[j]) - Count(used, order[j])
    {
      var name := order[i];
      var want := requested[name];
      if want <= 0 {
        continue;
      }
      var free := Count(capacity, name) - Count(used, name);
      if free < want {
        return false;
      }
    }
    return true;
  }

  method PortsFit(requested: seq<int>, used: set<int>) returns (ok: bool)
    ensures ok <==> forall i :: 0 <= i < |requested| ==> requested[i] !in used
  {
    for i := 0 to |requested|
      invariant forall j :: 0 <= j < i ==> requested[j] !in used
    {
      if requested[i] in used {
        return false;
      }
    }
    return true;
  }

  /** The checks of the loop body decide `Fits`. */
  lemma FitsDecided(c: Candidate, r: Request)
    ensures Fits(c, r) <==>
      && r.amounts.cpu <= Free(c, Cpu) && r.amounts.memory <= Free(c, Memory)
      && (forall name <- r.amounts.accelerators ::
            r.amounts.accelerators[name] <= 0
            || r.amounts.accelerators[name] <= Count(c.capacity.accelerators, name) - Count(c.used.accelerators, name))
      && FitsPorts(c, r)
  {
    if Fits(c, r) {
      assert FitsDim(c, r, Cpu) && FitsDim(c, r, Memory);
      assert forall name <- r.amounts.accelerators :: FitsDim(c, r, Accelerator(name));
    }
  }

  /** The candidate has the CPU, the memory, the accelerators and the ports that are asked for. */
  predicate Accepts(c: Candidate, r: Request)
  {
    && r.amounts.cpu <= c.capacity.cpu - c.used.cpu && r.amounts.memory <= c.capacity.memory - c.used.memory
    && (forall name <- r.amounts.accelerators :: r.amounts.accelerators[name] > 0 ==>
          r.amounts.accelerators[name] <= Count(c.capacity.accelerators, name) - Count(c.used.accelerators, name))
    && (forall i :: 0 <= i < |r.ports| ==> r.ports[i] !in c.usedPorts)
  }

  /** Free CPU plus free memory. */
  function Spare(c: Candidate): int
  {
    c.capacity.cpu - c.used.cpu + (c.capacity.memory - c.used.memory)
  }

  lemma ViableMeans(c: Candidate, r: Request)
    ensures Viable(c, r) <==> Accepts(c, r) && Spare(c) >= 0
    ensures Score(c) == Spare(c)
  {
    FitsDecided(c, r);
  }

  /** The decision on the fields of the candidates: the first of those that accept the request with the most to spare, and
      none only if all that accept it are overcommitted. */
  lemma ChoiceMeans(cs: seq<Candidate>, r: Request)
    ensures Choice(cs, r) == None <==> forall i :: 0 <= i < |cs| && Accepts(cs[i], r) ==> Spare(cs[i]) < 0
    ensures Choice(cs, r).Some? ==> exists i ::
      && 0 <= i < |cs| && Choice(cs, r) == Some(cs[i].name) && Accepts(cs[i], r)
      && (forall j :: 0 <= j < |cs| && Accepts(cs[j], r) ==> Spare(cs[j]) <= Spare(cs[i]))
      && (forall j :: 0 <= j < i && Accepts(cs[j], r) ==> Spare(cs[j]) < Spare(cs[i]))
  {
    forall i | 0 <= i < |cs| ensures Viable(cs[i], r) <==> Accepts(cs[i], r) && Spare(cs[i]) >= 0 {
      ViableMeans(cs[i], r);
    }
    if Choice(cs, r) == None {
      forall i | 0 <= i < |cs| ensures !Viable(cs[i], r) {
        if Viable(cs[i], r) {
          ViableHasBest(cs, r);
        }
      }
    } else {
      var i :| Best(cs, r, i) && Choice(cs, r) == Some(cs[i].name);
      forall j | 0 <= j < |cs| && Accepts(cs[j], r) ensures Spare(cs[j]) <= Spare(cs[i]) && (j < i ==> Spare(cs[j]) < Spare(cs[i])) {
        ViableMeans(cs[j], r);
        ViableMeans(cs[i], r);
      }
    }
  }

  /** Sound, complete and optimal over every list of candidates. */
  method Schedule(pod: Request, nodes: seq<Candidate>) returns (r: Option<string>)
    ensures r == Choice(nodes, pod)
    ensures r == None <==> forall i :: 0 <= i < |nodes| ==> !Viable(nodes[i], pod)
    ensures r.Some? ==> exists i :: Best(nodes, pod, i) && nodes[i].name == r.value
  {
    var best := -1;
    var bestScore := -1;
    for i := 0 to |nodes|
      invariant -1 <= best < i
      invariant best == -1 ==> bestScore == -1 && forall j :: 0 <= j < i ==> !Viable(nodes[j], pod)
      invariant best >= 0 ==> bestScore == Score(nodes[best]) && Best(nodes[..i], pod, best)
    {
      assert nodes[..i + 1] == nodes[..i] + [nodes[i]];
      var n := nodes[i];
      FitsDecided(n, pod);
      var freeCpu := n.capacity.cpu - n.used.cpu;
      var freeMem := n.capacity.memory - n.used.memory;
      if freeCpu < pod.amounts.cpu || freeMem < pod.amounts.memory {
        continue;
      }
      var acceleratorsOk := AcceleratorsFit(pod.amounts.accelerators, n.capacity.accelerators, n.used.accelerators);
      if !acceleratorsOk {
        continue;
      }
      var portsOk := PortsFit(pod.ports, n.usedPorts);
      if !portsOk {
        continue;
      }
      var score := freeCpu + freeMem;
      if score > bestScore {
        bestScore := score;
        best := i;
      }
    }
    assert nodes[..|nodes|] == nodes;
    if best == -1 {
      ChoiceNone(nodes, pod);
      return None;
    }
    ChoiceIs(nodes, pod, best);
    return Some(nodes[best].name);
  }
}
