/** Whole-pass theorems about the deployment reconciler. */
module Convergence {
  import opened Names
  import opened Cluster
  import opened Scheduler
  import opened Usage
  import opened Reconcile

  // ---------------------------------------------------------------- ordinals

  ghost function Below(n: nat): (r: set<int>)
    ensures |r| == n
    ensures forall i :: i in r <==> 0 <= i < n
  {
    if n == 0 then {} else Below(n - 1) + {n - 1}
  }

  lemma SubsetSize<T>(a: set<T>, b: set<T>)
    requires a <= b
    ensures |a| <= |b|
  {
    assert b == a + (b - a);
  }

  lemma TwoElements<T>(a: set<T>, x: T, y: T)
    requires x in a && y in a
    ensures |a| <= 1 ==> x == y
  {
    SubsetSize({x, y}, a);
  }

  lemma OneElement<T>(a: set<T>, x: T)
    requires |a| <= 1 && x in a
    ensures a == {x}
  {
    forall y | y in a ensures y == x {
      TwoElements(a, x, y);
    }
  }

  /** Pigeonhole: the `n` smallest free ordinals next to `m` occupied ones all lie below `n + m`. */
  lemma OrdinalsBelow(ordinals: set<nat>, occupied: set<int>, n: int, m: nat, i: nat)
    requires SmallestFree(ordinals, occupied, n)
    requires |occupied| <= m
    requires i in ordinals
    ensures i < n + m
  {
    var rest: set<int> := ordinals - {i};
    assert Below(i) <= rest + occupied;
    SubsetSize(Below(i), rest + occupied);
    UnionSize(rest, occupied);
  }

  lemma UnionSize<T>(a: set<T>, b: set<T>)
    ensures |a + b| <= |a| + |b|
  {
    assert a + b == a + (b - a);
    SubsetSize(b - a, b);
  }

  lemma SmallestFreeUnique(a: set<nat>, b: set<nat>, occupied: set<int>, n: int)
    requires SmallestFree(a, occupied, n) && SmallestFree(b, occupied, n)
    ensures a == b
  {
    SmallestFreeIncluded(a, b, occupied, n);
    SmallestFreeIncluded(b, a, occupied, n);
  }

  lemma SmallestFreeIncluded(a: set<nat>, b: set<nat>, occupied: set<int>, n: int)
    requires SmallestFree(a, occupied, n) && SmallestFree(b, occupied, n)
    ensures a <= b
  {
    forall i | i in a ensures i in b {
      if i !in b {
        assert b <= a - {i};
        SubsetSize(b, a - {i});
      }
    }
  }

  lemma {:induction false} OccupiedSize(d: Deployment, keys: set<ObjectKey>)
    ensures |Occupied(d, keys)| <= |keys|
  {
    if keys != {} {
      var k :| k in keys;
      OccupiedSize(d, keys - {k});
      var idx := Ordinal(d.key.name, k.name);
      assert Occupied(d, keys) == Occupied(d, keys - {k}) + if idx.Some? then {idx.value} else {};
      if idx.Some? {
        UnionSize(Occupied(d, keys - {k}), {idx.value});
      }
    }
  }

  lemma {:induction false} NewKeysSize(d: Deployment, ordinals: set<nat>)
    ensures |NewKeys(d, ordinals)| == |ordinals|
  {
    if ordinals == {} {
      assert NewKeys(d, {}) == {};
    } else {
      var i :| i in ordinals;
      NewKeysSize(d, ordinals - {i});
      if NewKey(d, i) in NewKeys(d, ordinals - {i}) {
        var j :| j in ordinals - {i} && NewKey(d, j) == NewKey(d, i);
        PodNameInjective(d.key.name, i, d.key.name, j);
      }
      assert NewKeys(d, ordinals) == NewKeys(d, ordinals - {i}) + {NewKey(d, i)};
    }
  }

  /** The fill creates `want - have` pods, at ordinals below `want`, and none of them is a pod already owned. */
  lemma FillIsFresh(d: Deployment, survivors: set<ObjectKey>, ordinals: set<nat>)
    requires Sizes(d, survivors, Grow(ordinals))
    ensures forall i :: i in ordinals ==> i < Want(d)
    ensures NewKeys(d, ordinals) !! survivors
    ensures |survivors + NewKeys(d, ordinals)| == Want(d)
  {
    OccupiedSize(d, survivors);
    forall i | i in ordinals ensures i < Want(d) && NewKey(d, i) !in survivors {
      OrdinalsBelow(ordinals, Occupied(d, survivors), Want(d) - |survivors|, |survivors|, i);
      OrdinalOfPodName(d.key.name, i);
      assert NewKey(d, i) in survivors ==> i in Occupied(d, survivors);
    }
    NewKeysSize(d, ordinals);
  }

  // ---------------------------------------------------------------- the owned set through a pass

  /** Pods created by this pass survive its second listing exactly when this holds. */
  ghost predicate NewNodeAlive(d: Deployment, s: State)
  {
    var n := NewNode(d, ClaimedNode(s.volumes, d.key.namespace, d.template.mounts));
    n == "" || NodeReady(s.nodes, n)
  }

  lemma GrownAt(d: Deployment, claimed: string, base: Pods, ordinals: set<nat>, k: ObjectKey)
    ensures k in Grown(d, claimed, base, ordinals) <==> k in base || k in NewKeys(d, ordinals)
    ensures k in NewKeys(d, ordinals) ==>
      Grown(d, claimed, base, ordinals)[k] == NewPod(d, claimed) && IsOwned(d, k, NewPod(d, claimed))
    ensures k in base && k !in NewKeys(d, ordinals) ==> Grown(d, claimed, base, ordinals)[k] == base[k]
  {
  }

  lemma SurvivesGrowth(d: Deployment, nodes: Nodes, pods: Pods, claimed: string, ordinals: set<nat>, k: ObjectKey)
    requires NewKeys(d, ordinals) !! Survivors(d, nodes, pods)
    ensures k in Survivors(d, nodes, Grown(d, claimed, Swept(d, nodes, pods), ordinals)) <==>
      k in Survivors(d, nodes, pods) || (Alive(nodes, NewPod(d, claimed)) && k in NewKeys(d, ordinals))
  {
    GrownAt(d, claimed, Swept(d, nodes, pods), ordinals, k);
  }

  lemma SurvivorsAfterGrowth(d: Deployment, nodes: Nodes, pods: Pods, claimed: string, ordinals: set<nat>)
    requires NewKeys(d, ordinals) !! Survivors(d, nodes, pods)
    ensures Survivors(d, nodes, Grown(d, claimed, Swept(d, nodes, pods), ordinals)) ==
      Survivors(d, nodes, pods) + if Alive(nodes, NewPod(d, claimed)) then NewKeys(d, ordinals) else {}
  {
    var after := Survivors(d, nodes, Grown(d, claimed, Swept(d, nodes, pods), ordinals));
    var expected := Survivors(d, nodes, pods) + if Alive(nodes, NewPod(d, claimed)) then NewKeys(d, ordinals) else {};
    forall k ensures k in after <==> k in expected {
      SurvivesGrowth(d, nodes, pods, claimed, ordinals, k);
    }
  }

  lemma SurvivorsOfGrown(d: Deployment, s: State, ordinals: set<nat>)
    requires Sizes(d, Survivors(d, s.nodes, s.pods), Grow(ordinals))
    ensures Mine(d, Settled(d, s, Grow(ordinals))) ==
      Survivors(d, s.nodes, s.pods) + if NewNodeAlive(d, s) then NewKeys(d, ordinals) else {}
  {
    var claimed := ClaimedNode(s.volumes, d.key.namespace, d.template.mounts);
    FillIsFresh(d, Survivors(d, s.nodes, s.pods), ordinals);
    SweptIsMine(d, s.nodes, Grown(d, claimed, Swept(d, s.nodes, s.pods), ordinals));
    SurvivorsAfterGrowth(d, s.nodes, s.pods, claimed, ordinals);
  }

  lemma SurvivorsOfTrimmed(d: Deployment, s: State, dropped: set<ObjectKey>)
    requires Sizes(d, Survivors(d, s.nodes, s.pods), Trim(dropped))
    ensures Mine(d, Settled(d, s, Trim(dropped))) == Survivors(d, s.nodes, s.pods) - dropped
  {
  }

  lemma SurvivorsOfKept(d: Deployment, s: State)
    ensures Settled(d, s, Keep) == Swept(d, s.nodes, s.pods)
    ensures Mine(d, Settled(d, s, Keep)) == Survivors(d, s.nodes, s.pods)
  {
  }

  lemma SettledCount(d: Deployment, s: State, z: Sizing)
    requires Want(d) >= 0 && Sizes(d, Survivors(d, s.nodes, s.pods), z)
    ensures |Mine(d, Settled(d, s, z))| == Want(d) <==> |Survivors(d, s.nodes, s.pods)| >= Want(d) || NewNodeAlive(d, s)
    ensures |Mine(d, Settled(d, s, z))| != Want(d) ==> z.Grow? && Mine(d, Settled(d, s, z)) == Survivors(d, s.nodes, s.pods)
  {
    var survivors := Survivors(d, s.nodes, s.pods);
    match z
    case Grow(ordinals) =>
      SurvivorsOfGrown(d, s, ordinals);
      FillIsFresh(d, survivors, ordinals);
    case Trim(dropped) =>
      SurvivorsOfTrimmed(d, s, dropped);
      assert survivors == dropped + (survivors - dropped);
    case Keep =>
      SurvivorsOfKept(d, s);
  }

  /** A chosen node is one of the ready, schedulable nodes. */
  lemma ChosenIsEligible(cs: seq<Candidate>, nodes: Nodes, pods: Pods, r: Request)
    requires CandidatesOf(cs, nodes, pods)
    ensures Choice(cs, r).Some? ==> Choice(cs, r).value in nodes && Eligible(nodes[Choice(cs, r).value])
  {
    if Choice(cs, r).Some? {
      var i :| Best(cs, r, i) && Choice(cs, r) == Some(cs[i].name);
      assert Reflects(cs[i], nodes, pods);
    }
  }

  lemma PlacedAlive(d: Deployment, s: State, z: Sizing, cs: seq<Candidate>, s': State, k: ObjectKey)
    requires PassVia(d, s, z, cs, s')
    requires k in Mine(d, s'.pods)
    ensures Alive(s'.nodes, s'.pods[k])
  {
    var settled := Settled(d, s, z);
    assert IsOwned(d, k, settled[k]) && Alive(s.nodes, settled[k]);
    if Unassigned(d, k, settled[k]) {
      assert k in Waiting(d, settled);
      ChosenIsEligible(cs, s.nodes, settled, RequestOf(settled[k].spec.containers));
    }
  }

  /** Convergence: one pass from any pod state owns exactly the wanted number of live pods, unless it had to
      create pods and the node they are pinned to is not ready; then it owns just the survivors. */
  lemma Converges(d: Deployment, s: State, s': State)
    requires Pass(d, s, s')
    ensures |Mine(d, s'.pods)| == Want(d) <==> |Survivors(d, s.nodes, s.pods)| >= Want(d) || NewNodeAlive(d, s)
    ensures |Mine(d, s'.pods)| != Want(d) ==> Mine(d, s'.pods) == Survivors(d, s.nodes, s.pods)
    ensures forall k :: k in Mine(d, s'.pods) ==> Alive(s'.nodes, s'.pods[k])
  {
    var z, cs :| PassVia(d, s, z, cs, s');
    SettledCount(d, s, z);
    ScheduledKeepsMine(d, Settled(d, s, z), cs);
    forall k | k in Mine(d, s'.pods) ensures Alive(s'.nodes, s'.pods[k]) {
      PlacedAlive(d, s, z, cs, s', k);
    }
  }

  /** A deployment pinned to a node that does not exist: every pass creates the pods and evicts them again. */
  lemma PinnedToMissingNode(d: Deployment, s: State, s': State)
    requires Pass(d, s, s') && Want(d) > 0
    requires d.template.mounts == [] && d.template.nodeName != "" && d.template.nodeName !in s.nodes
    requires s.pods == map[]
    ensures Mine(d, s'.pods) == {}
  {
    Converges(d, s, s');
    assert Survivors(d, s.nodes, s.pods) == {};
  }

  /** A pod owned after the pass that did not survive from before was created from the template: its containers and mounts,
      the selector labels and the owner label, pending, on the pinned node if there is one. */
  lemma CreatedFromTemplate(d: Deployment, s: State, s': State, k: ObjectKey)
    requires Pass(d, s, s')
    requires k in Mine(d, s'.pods) && k !in Survivors(d, s.nodes, s.pods)
    ensures exists i: nat :: i < Want(d) && k == NewKey(d, i)
    ensures FollowsTemplate(d, s'.pods[k])
    ensures NewNode(d, ClaimedNode(s.volumes, d.key.namespace, d.template.mounts)) != "" ==>
      s'.pods[k].spec.nodeName == NewNode(d, ClaimedNode(s.volumes, d.key.namespace, d.template.mounts))
  {
    var z, cs :| PassVia(d, s, z, cs, s');
    var claimed := ClaimedNode(s.volumes, d.key.namespace, d.template.mounts);
    ScheduledKeepsMine(d, Settled(d, s, z), cs);
    NewcomerIsGrown(d, s, z, k);
    FillIsFresh(d, Survivors(d, s.nodes, s.pods), z.ordinals);
    var i :| i in z.ordinals && k == NewKey(d, i);
    NewPodFollowsTemplate(d, claimed, cs);
    assert s'.pods[k] == NewPod(d, claimed) || s'.pods[k] == Placed(NewPod(d, claimed), cs);
  }

  lemma NewcomerIsGrown(d: Deployment, s: State, z: Sizing, k: ObjectKey)
    requires Want(d) >= 0 && Sizes(d, Survivors(d, s.nodes, s.pods), z)
    requires k in Mine(d, Settled(d, s, z)) && k !in Survivors(d, s.nodes, s.pods)
    ensures z.Grow? && k in NewKeys(d, z.ordinals)
    ensures Settled(d, s, z)[k] == NewPod(d, ClaimedNode(s.volumes, d.key.namespace, d.template.mounts))
  {
    match z
    case Grow(ordinals) =>
      SurvivorsOfGrown(d, s, ordinals);
      GrownAt(d, ClaimedNode(s.volumes, d.key.namespace, d.template.mounts), Swept(d, s.nodes, s.pods), ordinals, k);
    case Trim(dropped) => SurvivorsOfTrimmed(d, s, dropped);
    case Keep => SurvivorsOfKept(d, s);
  }

  ghost predicate FollowsTemplate(d: Deployment, p: Pod)
  {
    && p.spec.containers == d.template.containers && p.spec.mounts == d.template.mounts && p.phase == Pending
    && Owner(p.labels) == d.key.name
    && (forall l :: l in d.selector && l != OWNER_LABEL ==> l in p.labels && p.labels[l] == d.selector[l])
  }

  lemma NewPodFollowsTemplate(d: Deployment, claimed: string, cs: seq<Candidate>)
    ensures FollowsTemplate(d, NewPod(d, claimed)) && FollowsTemplate(d, Placed(NewPod(d, claimed), cs))
  {
  }
}
