/** Rounds settle: with the nodes unchanged, after two rounds no pass over any of the deployments changes anything. */
module Settling {
  import opened Names
  import opened Cluster
  import opened Scheduler
  import opened Usage
  import opened Reconcile
  import opened Convergence
  import opened Fixpoint
  import opened Framing
  import opened Placement
  import opened VolumeSafety
  import opened Round

  // ---------------------------------------------------------------- a deployment whose next pass only places pods

  ghost predicate AllAlive(d: Deployment, s: State)
  {
    forall k :: k in Mine(d, s.pods) ==> Alive(s.nodes, s.pods[k])
  }

  /** The ordinals still to fill are on no pod's name. */
  ghost predicate Gaps(d: Deployment, s: State)
  {
    forall i: nat :: Filled(d, s, i) ==> NewKey(d, i) !in s.pods
  }

  /** The wanted count is reached, or out of reach because new pods would be evicted at once. */
  ghost predicate Calm(d: Deployment, s: State)
  {
    && Named(d, s.pods) && AllAlive(d, s)
    && (|Mine(d, s.pods)| == Want(d) || (|Mine(d, s.pods)| < Want(d) && !NewNodeAlive(d, s) && Gaps(d, s)))
  }

  lemma GapsAfter(d: Deployment, s: State, z: Sizing, cs: seq<Candidate>, s': State)
    requires PassVia(d, s, z, cs, s') && |Mine(d, s'.pods)| < Want(d)
    ensures Gaps(d, s')
  {
    UnmetLeavesGaps(d, s, z, cs, s');
    Converges(d, s, s');
    SweepOfLive(d, s'.nodes, s'.pods);
    forall i: nat | Filled(d, s', i) ensures NewKey(d, i) !in s'.pods {
      assert Filled(d, s, i);
      FilledIsNew(d, s, z, i);
    }
  }

  /** Every pass leaves its deployment calm. */
  lemma PassCalms(d: Deployment, s: State, s': State)
    requires Named(d, s.pods) && Pass(d, s, s')
    ensures Calm(d, s')
  {
    Converges(d, s, s');
    PassKeepsNames(d, s, s');
    if |Mine(d, s'.pods)| != Want(d) {
      var z, cs :| PassVia(d, s, z, cs, s');
      assert |Mine(d, s'.pods)| < Want(d);
      UnmetMakesNoClaim(d, s, s');
      GapsAfter(d, s, z, cs, s');
    }
  }

  /** A pass over a calm deployment evicts nothing and creates nothing that stays. */
  lemma CalmSettles(d: Deployment, s: State, z: Sizing)
    requires Calm(d, s) && Want(d) >= 0 && Sizes(d, Survivors(d, s.nodes, s.pods), z)
    ensures Settled(d, s, z) == s.pods
  {
    SweepOfLive(d, s.nodes, s.pods);
    if |Mine(d, s.pods)| == Want(d) {
      SurvivorsOfKept(d, s);
    } else {
      forall k | k in NewKeys(d, z.ordinals) ensures k !in s.pods {
        var i :| i in z.ordinals && k == NewKey(d, i);
        FilledIsNew(d, s, z, i);
      }
      RegrowLeavesNothing(d, s, z.ordinals);
    }
  }

  lemma NamesDiffer(d: Deployment, e: Deployment, i: nat, j: nat)
    requires d.key != e.key
    ensures NewKey(d, i) != NewKey(e, j)
  {
    if NewKey(d, i) == NewKey(e, j) {
      PodNameInjective(d.key.name, i, e.key.name, j);
      assert false;
    }
  }

  /** Nothing of another deployment appears on this one's names. */
  lemma OthersAvoidNames(d: Deployment, e: Deployment, s: State, s': State, i: nat)
    requires Pass(e, s, s') && Unrelated(d, e) && NewKey(d, i) !in s.pods
    ensures NewKey(d, i) !in s'.pods
  {
    var k := NewKey(d, i);
    if k in s'.pods {
      OnlyOrdinalsAppear(e, s, s', k);
      var j: nat :| j < Want(e) && k == NewKey(e, j);
      NamesDiffer(d, e, i, j);
      assert false;
    }
  }

  lemma OthersKeepGaps(d: Deployment, e: Deployment, s: State, s': State)
    requires Pass(e, s, s') && Unrelated(d, e) && Gaps(d, s)
    requires Survivors(d, s'.nodes, s'.pods) == Survivors(d, s.nodes, s.pods)
    ensures Gaps(d, s')
  {
    forall i: nat | Filled(d, s', i) ensures NewKey(d, i) !in s'.pods {
      assert Filled(d, s, i);
      OthersAvoidNames(d, e, s, s', i);
    }
  }

  lemma OthersKeepCalm(d: Deployment, e: Deployment, s: State, s': State)
    requires Calm(d, s) && Pass(e, s, s') && Unrelated(d, e)
    ensures Calm(d, s')
  {
    OneOther(d, e, s, s');
    OtherStepKeepsStart(d, s, s');
    if |Mine(d, s.pods)| != Want(d) {
      OthersKeepGaps(d, e, s, s');
    }
  }

  // ---------------------------------------------------------------- usage only grows

  ghost predicate Busier(nodes: Nodes, p: Pods, q: Pods)
  {
    && (forall n, dim :: n in nodes ==> Used(p, n, dim) <= Used(q, n, dim))
    && (forall n, port :: n in nodes && PortTaken(p, n, port) ==> PortTaken(q, n, port))
  }

  ghost predicate Fair(pods: Pods)
  {
    forall k :: k in pods ==> NonNegative(pods[k].spec.containers)
  }

  lemma PlacingIsBusier(d: Deployment, nodes: Nodes, pods: Pods, cs: seq<Candidate>)
    requires "" !in nodes && Fair(pods)
    ensures Busier(nodes, pods, Scheduled(d, pods, cs))
  {
    forall n, dim | n in nodes ensures Used(pods, n, dim) <= Used(Scheduled(d, pods, cs), n, dim) {
      SchedulingAddsUsage(d, pods, cs, n, dim);
    }
    forall n, port | n in nodes && PortTaken(pods, n, port) ensures PortTaken(Scheduled(d, pods, cs), n, port) {
      SchedulingKeepsPorts(d, pods, cs, n, port);
    }
  }

  lemma CalmPassIsBusier(d: Deployment, s: State, s': State)
    requires "" !in s.nodes && Calm(d, s) && Pass(d, s, s') && Fair(s.pods)
    ensures Busier(s.nodes, s.pods, s'.pods)
  {
    var z, cs :| PassVia(d, s, z, cs, s');
    CalmSettles(d, s, z);
    PlacingIsBusier(d, s.nodes, s.pods, cs);
  }

  lemma PassKeepsFair(d: Deployment, s: State, s': State)
    requires Pass(d, s, s') && Fair(s.pods) && NonNegative(d.template.containers)
    ensures Fair(s'.pods)
  {
    var z, cs :| PassVia(d, s, z, cs, s');
    SettledNonNegative(d, s, z);
    PlacingIsFair(d, Settled(d, s, z), cs);
  }

  lemma PlacingIsFair(d: Deployment, pods: Pods, cs: seq<Candidate>)
    requires Fair(pods)
    ensures Fair(Scheduled(d, pods, cs))
  {
    forall k | k in Scheduled(d, pods, cs) ensures NonNegative(Scheduled(d, pods, cs)[k].spec.containers) {
      ScheduledNode(d, pods, cs, k);
    }
  }

  // ---------------------------------------------------------------- a deployment with nothing left to do

  /** Some earlier, less busy state already had no node for the request. */
  ghost predicate NoFit(nodes: Nodes, pods: Pods, r: Request)
  {
    exists base, cs :: CandidatesOf(cs, nodes, base) && Choice(cs, r) == None && Busier(nodes, base, pods)
  }

  /** Every waiting pod says so, and no node fits it. */
  ghost predicate Stuck(d: Deployment, s: State)
  {
    forall k :: k in Waiting(d, s.pods) ==> StuckPod(s, k)
  }

  ghost predicate StuckPod(s: State, k: ObjectKey)
    requires k in s.pods
  {
    && s.pods[k].message == PendingMessage(RequestOf(s.pods[k].spec.containers).ports)
    && NoFit(s.nodes, s.pods, RequestOf(s.pods[k].spec.containers))
  }

  /** The mounted volumes are claimed, if there is a pod to claim them for. */
  ghost predicate ClaimsDone(d: Deployment, s: State)
  {
    d.template.mounts == [] || Mine(d, s.pods) == Waiting(d, s.pods)
      || forall v :: v in s.volumes && Mounted(d, v) ==> s.volumes[v].nodeName != ""
  }

  ghost predicate StatusDone(d: Deployment, s: State)
  {
    d.key in s.deployments ==>
      s.deployments[d.key].status == DeploymentStatus(|Mine(d, s.pods)|, |RunningPods(d, s.pods)|)
  }

  ghost predicate Done(d: Deployment, s: State)
  {
    Calm(d, s) && Stuck(d, s) && ClaimsDone(d, s) && StatusDone(d, s)
  }

  lemma BusierTransitive(nodes: Nodes, p: Pods, q: Pods, r: Pods)
    requires Busier(nodes, p, q) && Busier(nodes, q, r)
    ensures Busier(nodes, p, r)
  {
    forall n, dim | n in nodes ensures Used(p, n, dim) <= Used(r, n, dim) {
      assert Used(p, n, dim) <= Used(q, n, dim) <= Used(r, n, dim);
    }
  }

  lemma NoFitStays(nodes: Nodes, p: Pods, q: Pods, r: Request)
    requires NoFit(nodes, p, r) && Busier(nodes, p, q)
    ensures NoFit(nodes, q, r)
  {
    var base, cs :| CandidatesOf(cs, nodes, base) && Choice(cs, r) == None && Busier(nodes, base, p);
    BusierTransitive(nodes, base, p, q);
  }

  lemma NoFitNoChoice(nodes: Nodes, pods: Pods, r: Request, cs: seq<Candidate>)
    requires NoFit(nodes, pods, r) && CandidatesOf(cs, nodes, pods)
    ensures Choice(cs, r) == None
  {
    var base, bs :| CandidatesOf(bs, nodes, base) && Choice(bs, r) == None && Busier(nodes, base, pods);
    NoneStaysNone(bs, cs, nodes, base, pods, r);
  }

  /** A pod still waiting after a round was sent nowhere. */
  lemma WaitingStuck(d: Deployment, nodes: Nodes, pods: Pods, cs: seq<Candidate>, k: ObjectKey)
    requires "" !in nodes && Fair(pods) && CandidatesOf(cs, nodes, pods)
    requires k in Waiting(d, Scheduled(d, pods, cs))
    ensures var p := Scheduled(d, pods, cs)[k];
      p.message == PendingMessage(RequestOf(p.spec.containers).ports)
      && NoFit(nodes, Scheduled(d, pods, cs), RequestOf(p.spec.containers))
  {
    var r := RequestOf(pods[k].spec.containers);
    ChosenIsEligible(cs, nodes, pods, r);
    assert Choice(cs, r) == None;
    PlacingIsBusier(d, nodes, pods, cs);
  }

  lemma PassSticks(d: Deployment, s: State, s': State)
    requires "" !in s.nodes && Calm(d, s) && Pass(d, s, s') && Fair(s.pods)
    ensures Stuck(d, s')
  {
    var z, cs :| PassVia(d, s, z, cs, s');
    CalmSettles(d, s, z);
    forall k | k in Waiting(d, s'.pods) ensures StuckPod(s', k) {
      assert k in Waiting(d, s.pods);
      WaitingStuck(d, s.nodes, s.pods, cs, k);
    }
  }

  lemma PassClaims(d: Deployment, s: State, s': State)
    requires Pass(d, s, s')
    ensures ClaimsDone(d, s') && StatusDone(d, s')
  {
    var z, cs :| PassVia(d, s, z, cs, s');
    StampedIsDone(d, s.volumes, s');
    ReportedIsDone(d, s.deployments, s');
  }

  lemma StampedIsDone(d: Deployment, before: Volumes, s: State)
    requires Claims(d, s.pods, before, s.volumes)
    ensures ClaimsDone(d, s)
  {
    if d.template.mounts != [] && Mine(d, s.pods) != Waiting(d, s.pods) {
      var k :| k in Mine(d, s.pods) && k !in Waiting(d, s.pods) && s.volumes == Stamped(d, before, s.pods[k].spec.nodeName);
      assert s.pods[k].spec.nodeName != "";
    }
  }

  lemma ReportedIsDone(d: Deployment, before: Deployments, s: State)
    requires s.deployments == Reported(d, s.pods, before)
    ensures StatusDone(d, s)
  {
  }

  /** A pass over a calm deployment is its last: nothing is left to do. */
  lemma CalmPassIsDone(d: Deployment, s: State, s': State)
    requires "" !in s.nodes && Calm(d, s) && Pass(d, s, s') && Fair(s.pods)
    ensures Done(d, s')
  {
    PassCalms(d, s, s');
    PassSticks(d, s, s');
    PassClaims(d, s, s');
  }

  lemma OthersKeepStuck(d: Deployment, e: Deployment, s: State, s': State)
    requires "" !in s.nodes && Fair(s.pods) && Named(d, s.pods) && Stuck(d, s)
    requires Calm(e, s) && Pass(e, s, s') && Unrelated(d, e)
    ensures Stuck(d, s')
  {
    OneOther(d, e, s, s');
    CalmPassIsBusier(e, s, s');
    forall k | k in Waiting(d, s'.pods) ensures StuckPod(s', k) {
      assert k in Mine(d, s.pods) && k in Waiting(d, s.pods) && StuckPod(s, k);
      NoFitStays(s.nodes, s.pods, s'.pods, RequestOf(s.pods[k].spec.containers));
    }
  }

  lemma OthersKeepClaims(d: Deployment, e: Deployment, s: State, s': State)
    requires Named(d, s.pods) && Pass(e, s, s') && Unrelated(d, e)
    requires ClaimsDone(d, s) && StatusDone(d, s)
    ensures ClaimsDone(d, s') && StatusDone(d, s')
  {
    OneOther(d, e, s, s');
    assert Waiting(d, s'.pods) == Waiting(d, s.pods) by { SameWaiting(d, s, s'); }
    assert RunningPods(d, s'.pods) == RunningPods(d, s.pods) by { SameWaiting(d, s, s'); }
  }

  lemma SameWaiting(d: Deployment, s: State, s': State)
    requires OtherStep(d, s, s')
    ensures Waiting(d, s'.pods) == Waiting(d, s.pods) && RunningPods(d, s'.pods) == RunningPods(d, s.pods)
  {
    forall k
      ensures k in Waiting(d, s'.pods) <==> k in Waiting(d, s.pods)
      ensures k in RunningPods(d, s'.pods) <==> k in RunningPods(d, s.pods)
    {
      assert k in Mine(d, s'.pods) <==> k in Mine(d, s.pods);
    }
  }

  lemma OthersKeepDone(d: Deployment, e: Deployment, s: State, s': State)
    requires "" !in s.nodes && Fair(s.pods) && Done(d, s)
    requires Calm(e, s) && Pass(e, s, s') && Unrelated(d, e)
    ensures Done(d, s')
  {
    OthersKeepCalm(d, e, s, s');
    OthersKeepStuck(d, e, s, s');
    OthersKeepClaims(d, e, s, s');
  }

  lemma StuckStays(d: Deployment, s: State, cs: seq<Candidate>)
    requires Stuck(d, s) && (Waiting(d, s.pods) != {} ==> CandidatesOf(cs, s.nodes, s.pods))
    ensures Scheduled(d, s.pods, cs) == s.pods
  {
    forall k | k in s.pods && Unassigned(d, k, s.pods[k]) ensures Placed(s.pods[k], cs) == s.pods[k] {
      assert k in Waiting(d, s.pods) && StuckPod(s, k);
      NoFitNoChoice(s.nodes, s.pods, RequestOf(s.pods[k].spec.containers), cs);
    }
  }

  lemma ClaimsStay(d: Deployment, s: State, after: Volumes)
    requires ClaimsDone(d, s) && Claims(d, s.pods, s.volumes, after)
    ensures after == s.volumes
  {
  }

  /** A pass over a deployment with nothing left to do leaves the whole store as it found it. */
  lemma DoneIsStill(d: Deployment, s: State, s': State)
    requires Done(d, s) && Pass(d, s, s')
    ensures s' == s
  {
    var z, cs :| PassVia(d, s, z, cs, s');
    CalmSettles(d, s, z);
    StuckStays(d, s, cs);
    ClaimsStay(d, s, s'.volumes);
  }

  // ---------------------------------------------------------------- rounds

  ghost predicate PairwiseUnrelated(ds: seq<Deployment>)
  {
    forall i, j :: 0 <= i < |ds| && 0 <= j < |ds| && i != j ==> Unrelated(ds[i], ds[j])
  }

  ghost predicate Ready(ds: seq<Deployment>, s: State)
  {
    && "" !in s.nodes && Fair(s.pods)
    && (forall d :: d in ds ==> Named(d, s.pods) && NonNegative(d.template.containers))
  }

  lemma ReadyStays(ds: seq<Deployment>, s: State, s': State, i: nat)
    requires PairwiseUnrelated(ds) && i < |ds| && Ready(ds, s) && Pass(ds[i], s, s')
    ensures Ready(ds, s')
  {
    PassKeepsFair(ds[i], s, s');
    forall d | d in ds ensures Named(d, s'.pods) {
      var j :| 0 <= j < |ds| && ds[j] == d;
      if i == j {
        PassKeepsNames(d, s, s');
      } else {
        OneOther(d, ds[i], s, s');
      }
    }
  }

  /** The first round calms every deployment it has visited. */
  lemma {:induction false} FirstRound(ds: seq<Deployment>, states: seq<State>, m: nat)
    requires Passes(ds, states) && PairwiseUnrelated(ds) && Ready(ds, states[0]) && m <= |ds|
    ensures Ready(ds, states[m]) && forall i :: 0 <= i < m ==> Calm(ds[i], states[m])
  {
    if m > 0 {
      var last := m - 1;
      FirstRound(ds, states, last);
      assert Pass(ds[last], states[last], states[last + 1]);
      ReadyStays(ds, states[last], states[m], last);
      forall i | 0 <= i < m ensures Calm(ds[i], states[m]) {
        if i == last {
          assert ds[last] in ds;
          PassCalms(ds[last], states[last], states[m]);
        } else {
          OthersKeepCalm(ds[i], ds[last], states[last], states[m]);
        }
      }
    }
  }

  /** A round over calm deployments keeps them calm and finishes every one it has visited. */
  lemma {:induction false} SecondRound(ds: seq<Deployment>, states: seq<State>, m: nat)
    requires Passes(ds, states) && PairwiseUnrelated(ds) && Ready(ds, states[0]) && m <= |ds|
    requires forall d :: d in ds ==> Calm(d, states[0])
    ensures Ready(ds, states[m])
    ensures forall i :: 0 <= i < |ds| ==> Calm(ds[i], states[m])
    ensures forall i :: 0 <= i < m ==> Done(ds[i], states[m])
  {
    if m > 0 {
      var last := m - 1;
      SecondRound(ds, states, last);
      assert Pass(ds[last], states[last], states[last + 1]);
      ReadyStays(ds, states[last], states[m], last);
      CalmPassIsDone(ds[last], states[last], states[m]);
      forall i | 0 <= i < |ds| && i != last ensures Calm(ds[i], states[m]) && (i < last ==> Done(ds[i], states[m])) {
        OthersKeepCalm(ds[i], ds[last], states[last], states[m]);
        if i < last {
          OthersKeepDone(ds[i], ds[last], states[last], states[m]);
        }
      }
    }
  }

  lemma SettleSame(ds: seq<Deployment>, first: seq<State>, es: seq<Deployment>, second: seq<State>, d: Deployment, s': State)
    requires Passes(ds, first) && Passes(es, second) && second[0] == first[|ds|]
    requires PairwiseUnrelated(ds) && PairwiseUnrelated(es) && forall e :: e in ds <==> e in es
    requires Ready(ds, first[0])
    requires d in ds && Pass(d, second[|es|], s')
    ensures s' == second[|es|]
  {
    FirstRound(ds, first, |ds|);
    forall e | e in es ensures Calm(e, second[0]) {
      var i :| 0 <= i < |ds| && ds[i] == e;
    }
    SecondRound(es, second, |es|);
    var i :| 0 <= i < |es| && es[i] == d;
    DoneIsStill(d, second[|es|], s');
  }

  // ---------------------------------------------------------------- the status a deployment was listed with plays no part

  function SpecOf(d: Deployment): Deployment
  {
    d.(status := DeploymentStatus(0, 0))
  }

  lemma SpecOwns(d: Deployment, nodes: Nodes, pods: Pods)
    ensures Mine(SpecOf(d), pods) == Mine(d, pods) && Waiting(SpecOf(d), pods) == Waiting(d, pods)
    ensures RunningPods(SpecOf(d), pods) == RunningPods(d, pods)
    ensures Survivors(SpecOf(d), nodes, pods) == Survivors(d, nodes, pods)
    ensures Swept(SpecOf(d), nodes, pods) == Swept(d, nodes, pods)
  {
  }

  lemma SpecNames(d: Deployment, ordinals: set<nat>, keys: set<ObjectKey>)
    ensures NewKeys(SpecOf(d), ordinals) == NewKeys(d, ordinals) && Occupied(SpecOf(d), keys) == Occupied(d, keys)
  {
    assert forall i: nat :: NewKey(SpecOf(d), i) == NewKey(d, i);
  }

  lemma SpecSettles(d: Deployment, s: State, z: Sizing)
    ensures Settled(SpecOf(d), s, z) == Settled(d, s, z)
    ensures Sizes(SpecOf(d), Survivors(d, s.nodes, s.pods), z) <==> Sizes(d, Survivors(d, s.nodes, s.pods), z)
  {
    var swept := Swept(d, s.nodes, s.pods);
    SpecOwns(d, s.nodes, s.pods);
    if z.Grow? {
      SpecNames(d, z.ordinals, Survivors(d, s.nodes, s.pods));
    }
    assert Sized(SpecOf(d), s.volumes, swept, z) == Sized(d, s.volumes, swept, z);
    SpecOwns(d, s.nodes, Sized(d, s.volumes, swept, z));
  }

  lemma SpecSchedules(d: Deployment, pods: Pods, cs: seq<Candidate>)
    ensures Scheduled(SpecOf(d), pods, cs) == Scheduled(d, pods, cs)
  {
  }

  lemma SpecClaims(d: Deployment, pods: Pods, before: Volumes, after: Volumes)
    requires Claims(d, pods, before, after)
    ensures Claims(SpecOf(d), pods, before, after)
  {
    SpecOwns(d, map[], pods);
    forall n ensures Stamped(SpecOf(d), before, n) == Stamped(d, before, n) {
    }
  }

  lemma SpecPasses(d: Deployment, s: State, s': State)
    requires Pass(d, s, s')
    ensures Pass(SpecOf(d), s, s')
  {
    var z, cs :| PassVia(d, s, z, cs, s');
    SpecOwns(d, s.nodes, s.pods);
    SpecSettles(d, s, z);
    SpecOwns(d, s.nodes, Settled(d, s, z));
    SpecSchedules(d, Settled(d, s, z), cs);
    SpecClaims(d, s'.pods, s.volumes, s'.volumes);
    SpecOwns(d, s.nodes, s'.pods);
    assert PassVia(SpecOf(d), s, z, cs, s');
  }

  function Specs(ds: seq<Deployment>): (r: seq<Deployment>)
    ensures |r| == |ds| && forall i :: 0 <= i < |ds| ==> r[i] == SpecOf(ds[i])
  {
    seq(|ds|, i requires 0 <= i < |ds| => SpecOf(ds[i]))
  }

  lemma SpecRound(ds: seq<Deployment>, states: seq<State>)
    requires Passes(ds, states)
    ensures Passes(Specs(ds), states)
  {
    forall i | 0 <= i < |ds| ensures Pass(Specs(ds)[i], states[i], states[i + 1]) {
      SpecPasses(ds[i], states[i], states[i + 1]);
    }
  }

  lemma SpecsUnrelated(ds: seq<Deployment>)
    requires PairwiseUnrelated(ds)
    ensures PairwiseUnrelated(Specs(ds))
  {
    forall i, j | 0 <= i < |ds| && 0 <= j < |ds| && i != j ensures Unrelated(Specs(ds)[i], Specs(ds)[j]) {
      assert Unrelated(ds[i], ds[j]);
      assert forall v :: Mounted(SpecOf(ds[i]), v) <==> Mounted(ds[i], v);
      assert forall v :: Mounted(SpecOf(ds[j]), v) <==> Mounted(ds[j], v);
    }
  }

  lemma SpecsReady(ds: seq<Deployment>, s: State)
    requires Ready(ds, s)
    ensures Ready(Specs(ds), s)
  {
    forall d | d in Specs(ds) ensures Named(d, s.pods) && NonNegative(d.template.containers) {
      var i :| 0 <= i < |ds| && Specs(ds)[i] == d;
      assert ds[i] in ds;
      SpecOwns(ds[i], s.nodes, s.pods);
      assert forall j: nat :: NewKey(d, j) == NewKey(ds[i], j);
    }
  }

  /** Both rounds go over the same deployments, up to the status each was listed with. */
  ghost predicate SameSpecs(ds: seq<Deployment>, es: seq<Deployment>)
  {
    forall d :: d in Specs(ds) <==> d in Specs(es)
  }

  /** Two rounds over the same pairwise unrelated deployments, each in any order, from any pod state: afterwards every pass
      over any of them leaves the whole store as it found it. */
  lemma RoundsSettle(ds: seq<Deployment>, first: seq<State>, es: seq<Deployment>, second: seq<State>, d: Deployment, s': State)
    requires Passes(ds, first) && Passes(es, second) && second[0] == first[|ds|]
    requires PairwiseUnrelated(ds) && PairwiseUnrelated(es) && SameSpecs(ds, es)
    requires Ready(ds, first[0])
    requires SpecOf(d) in Specs(ds) && Pass(d, second[|es|], s')
    ensures s' == second[|es|]
  {
    SpecRound(ds, first);
    SpecRound(es, second);
    SpecsUnrelated(ds);
    SpecsUnrelated(es);
    SpecsReady(ds, first[0]);
    SpecPasses(d, second[|es|], s');
    SettleSame(Specs(ds), first, Specs(es), second, SpecOf(d), s');
  }

  /** So the third round, in whatever order, is a chain of passes that all end where they began. */
  lemma {:induction false} ThirdRoundIsStill(ds: seq<Deployment>, first: seq<State>, es: seq<Deployment>, second: seq<State>,
                                            fs: seq<Deployment>, third: seq<State>, m: nat)
    requires Passes(ds, first) && Passes(es, second) && second[0] == first[|ds|]
    requires PairwiseUnrelated(ds) && PairwiseUnrelated(es) && SameSpecs(ds, es)
    requires Ready(ds, first[0])
    requires Passes(fs, third) && third[0] == second[|es|] && (forall f :: f in fs ==> SpecOf(f) in Specs(ds)) && m <= |fs|
    ensures third[m] == third[0]
  {
    if m > 0 {
      ThirdRoundIsStill(ds, first, es, second, fs, third, m - 1);
      var last := m - 1;
      assert Pass(fs[last], third[last], third[last + 1]);
      RoundsSettle(ds, first, es, second, fs[last], third[m]);
    }
  }
}
