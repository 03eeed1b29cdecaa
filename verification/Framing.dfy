/** What a pass over one deployment leaves alone. */
module Framing {
  import opened Names
  import opened Cluster
  import opened Scheduler
  import opened Usage
  import opened Reconcile
  import opened Convergence

  lemma SizedKeepsForeign(d: Deployment, s: State, z: Sizing, k: ObjectKey)
    requires Sizes(d, Survivors(d, s.nodes, s.pods), z)
    requires k in s.pods && !IsOwned(d, k, s.pods[k])
    requires z.Grow? ==> k !in NewKeys(d, z.ordinals)
    ensures k in Settled(d, s, z) && Settled(d, s, z)[k] == s.pods[k]
  {
    var base := Swept(d, s.nodes, s.pods);
    assert k in base && base[k] == s.pods[k];
    if z.Grow? {
      GrownAt(d, ClaimedNode(s.volumes, d.key.namespace, d.template.mounts), base, z.ordinals, k);
    }
  }

  lemma GrownOverNew(d: Deployment, s: State, ordinals: set<nat>, k: ObjectKey)
    requires k in NewKeys(d, ordinals)
    ensures k in Settled(d, s, Grow(ordinals)) ==> IsOwned(d, k, Settled(d, s, Grow(ordinals))[k])
  {
    GrownAt(d, ClaimedNode(s.volumes, d.key.namespace, d.template.mounts), Swept(d, s.nodes, s.pods), ordinals, k);
  }

  /** A pod the deployment does not own is untouched exactly when the pass does not create a pod of its name. */
  lemma ForeignPodVia(d: Deployment, s: State, z: Sizing, cs: seq<Candidate>, s': State, k: ObjectKey)
    requires PassVia(d, s, z, cs, s')
    requires k in s.pods && !IsOwned(d, k, s.pods[k])
    ensures (k in s'.pods && s'.pods[k] == s.pods[k]) <==> !(z.Grow? && k in NewKeys(d, z.ordinals))
  {
    ScheduledAt(d, Settled(d, s, z), cs, k);
    if z.Grow? && k in NewKeys(d, z.ordinals) {
      GrownOverNew(d, s, z.ordinals, k);
    } else {
      SizedKeepsForeign(d, s, z, k);
    }
  }

  /** Membership in the `n` smallest free ordinals: free, with fewer than `n` free ones below. */
  lemma SmallestFreeMember(ordinals: set<nat>, occupied: set<int>, n: int, i: nat)
    requires SmallestFree(ordinals, occupied, n)
    ensures i in ordinals <==> i !in occupied && |Below(i) - occupied| < n
  {
    if i in ordinals {
      var rest: set<int> := ordinals - {i};
      SubsetSize(Below(i) - occupied, rest);
    } else if i !in occupied {
      var all: set<int> := ordinals;
      forall j | j in all ensures j in Below(i) - occupied {
        assert j > i ==> i in ordinals;
      }
      SubsetSize(all, Below(i) - occupied);
    }
  }

  /** The ordinals a pass from `s` must create, read off the state before it. */
  ghost predicate Filled(d: Deployment, s: State, i: nat)
  {
    var survivors := Survivors(d, s.nodes, s.pods);
    i !in Occupied(d, survivors) && |Below(i) - Occupied(d, survivors)| < Want(d) - |survivors|
  }

  lemma FilledIsNew(d: Deployment, s: State, z: Sizing, i: nat)
    requires Want(d) >= 0 && Sizes(d, Survivors(d, s.nodes, s.pods), z)
    ensures Filled(d, s, i) <==> z.Grow? && NewKey(d, i) in NewKeys(d, z.ordinals)
  {
    var survivors := Survivors(d, s.nodes, s.pods);
    if z.Grow? {
      SmallestFreeMember(z.ordinals, Occupied(d, survivors), Want(d) - |survivors|, i);
      if NewKey(d, i) in NewKeys(d, z.ordinals) {
        var j :| j in z.ordinals && NewKey(d, j) == NewKey(d, i);
        PodNameInjective(d.key.name, i, d.key.name, j);
      }
    }
  }

  /** The fate of a stranger's pod, decided by the state before the pass: it is untouched exactly when it does not sit on
      an ordinal the pass has to fill. Creation is an upsert and overwrites it otherwise. */
  lemma ForeignPodFate(d: Deployment, s: State, s': State, k: ObjectKey)
    requires Pass(d, s, s')
    requires k in s.pods && !IsOwned(d, k, s.pods[k])
    ensures (k in s'.pods && s'.pods[k] == s.pods[k]) <==> !exists i: nat :: k == NewKey(d, i) && Filled(d, s, i)
  {
    var z, cs :| PassVia(d, s, z, cs, s');
    ForeignPodVia(d, s, z, cs, s', k);
    if z.Grow? && k in NewKeys(d, z.ordinals) {
      var i :| i in z.ordinals && k == NewKey(d, i);
      FilledIsNew(d, s, z, i);
    }
    forall i: nat | k == NewKey(d, i) ensures Filled(d, s, i) <==> z.Grow? && k in NewKeys(d, z.ordinals) {
      FilledIsNew(d, s, z, i);
    }
  }

  /** A stranger's pod on ordinal 0 of a deployment that has no pods yet never comes through the first pass. */
  lemma StrangerOverwritten(d: Deployment, s: State, s': State)
    requires Pass(d, s, s') && Want(d) > 0
    requires Mine(d, s.pods) == {} && NewKey(d, 0) in s.pods
    ensures NewKey(d, 0) in s'.pods ==> s'.pods[NewKey(d, 0)] != s.pods[NewKey(d, 0)]
  {
    var k := NewKey(d, 0);
    assert k in Mine(d, s.pods) <==> IsOwned(d, k, s.pods[k]);
    forall j ensures j !in Survivors(d, s.nodes, s.pods) {
      assert j in Survivors(d, s.nodes, s.pods) ==> j in Mine(d, s.pods);
    }
    assert Survivors(d, s.nodes, s.pods) == {};
    assert Occupied(d, Survivors(d, s.nodes, s.pods)) == {};
    SubsetSize(Below(0) - Occupied(d, Survivors(d, s.nodes, s.pods)), Below(0));
    assert Filled(d, s, 0);
    ForeignPodFate(d, s, s', k);
  }

  /** Every pod that appears carries an ordinal below the wanted count. */
  lemma OnlyOrdinalsAppear(d: Deployment, s: State, s': State, k: ObjectKey)
    requires Pass(d, s, s')
    requires k !in s.pods && k in s'.pods
    ensures exists i: nat :: i < Want(d) && k == NewKey(d, i)
  {
    var z, cs :| PassVia(d, s, z, cs, s');
    if z.Grow? {
      GrownAt(d, ClaimedNode(s.volumes, d.key.namespace, d.template.mounts), Swept(d, s.nodes, s.pods), z.ordinals, k);
      FillIsFresh(d, Survivors(d, s.nodes, s.pods), z.ordinals);
    }
  }

  /** A pod as the controller creates it for deployment `e`. */
  ghost predicate CreatedFor(e: Deployment, j: nat, pods: Pods)
  {
    NewKey(e, j) in pods && Owner(pods[NewKey(e, j)].labels) == e.key.name
  }

  /** `d` never lists the pods of `e` as its own: another key, and not the same name seen from the empty namespace. */
  predicate Apart(d: Deployment, e: Deployment)
  {
    d.key != e.key && (d.key.namespace != "" || d.key.name != e.key.name)
  }

  /** Reconciling a deployment never touches a pod created for one it is apart from. */
  lemma OtherDeploymentUntouched(d: Deployment, s: State, s': State, e: Deployment, j: nat)
    requires Pass(d, s, s') && Apart(d, e)
    requires CreatedFor(e, j, s.pods)
    ensures CreatedFor(e, j, s'.pods) && s'.pods[NewKey(e, j)] == s.pods[NewKey(e, j)]
  {
    var z, cs :| PassVia(d, s, z, cs, s');
    var k := NewKey(e, j);
    assert !IsOwned(d, k, s.pods[k]);
    if z.Grow? && k in NewKeys(d, z.ordinals) {
      var i :| i in z.ordinals && k == NewKey(d, i);
      PodNameInjective(d.key.name, i, e.key.name, j);
    }
    ForeignPodVia(d, s, z, cs, s', k);
  }

  /** `reconcileAll`: the passes of one round, in any order, over deployments apart from `e`. */
  lemma {:induction false} RoundLeavesOthers(ds: seq<Deployment>, states: seq<State>, e: Deployment, j: nat)
    requires |states| == |ds| + 1
    requires forall i :: 0 <= i < |ds| ==> Apart(ds[i], e) && Pass(ds[i], states[i], states[i + 1])
    requires CreatedFor(e, j, states[0].pods)
    ensures CreatedFor(e, j, states[|ds|].pods)
    ensures states[|ds|].pods[NewKey(e, j)] == states[0].pods[NewKey(e, j)]
    decreases |ds|
  {
    if ds != [] {
      var n := |ds| - 1;
      RoundLeavesOthers(ds[..n], states[..n + 1], e, j);
      OtherDeploymentUntouched(ds[n], states[n], states[n + 1], e, j);
    }
  }

  // ---------------------------------------------------------------- the empty namespace

  ghost function Everywhere(name: string, pods: Pods): set<ObjectKey>
  {
    set k | k in pods && Owner(pods[k].labels) == name
  }

  /** Without a namespace the listing spans all of them: after a pass with any replica count, all deployments of that name
      together have no more pods than this one wants. */
  lemma EmptyNamespaceTakesAll(d: Deployment, s: State, s': State)
    requires Pass(d, s, s') && d.key.namespace == ""
    ensures |Everywhere(d.key.name, s'.pods)| <= Want(d)
  {
    Converges(d, s, s');
    assert Everywhere(d.key.name, s'.pods) == Mine(d, s'.pods);
  }

  /** Whatever its replica count, a pass over `d` leaves the pods created for `e` alone. */
  ghost predicate NeverTouches(d: Deployment, e: Deployment)
  {
    forall r: int32, j: nat, s, s' | Pass(d.(replicas := r), s, s') && CreatedFor(e, j, s.pods) ::
      CreatedFor(e, j, s'.pods) && s'.pods[NewKey(e, j)] == s.pods[NewKey(e, j)]
  }

  ghost function OnePod(e: Deployment): State
  {
    State(map[NewKey(e, 0) := Pod(map[OWNER_LABEL := e.key.name], PodSpec("", [], []), Pending, "")], map[], map[], map[])
  }

  /** Scaled to zero, a deployment deletes a lone unassigned pod it owns. */
  lemma OnePodTrimmed(d: Deployment, e: Deployment)
    requires d.replicas == 0 && d.key.namespace == "" && d.key.name == e.key.name
    ensures Pass(d, OnePod(e), OnePod(e).(pods := map[]))
    ensures CreatedFor(e, 0, OnePod(e).pods)
  {
    var s, k := OnePod(e), NewKey(e, 0);
    var none: Pods := map[];
    var s' := s.(pods := none);
    assert Survivors(d, s.nodes, s.pods) == {k};
    var z := Trim({k});
    assert Sizes(d, Survivors(d, s.nodes, s.pods), z);
    assert Settled(d, s, z) == none;
    assert Waiting(d, none) == {} && Mine(d, none) == {};
    NothingWaiting(d, none, []);
    assert PassVia(d, s, z, [], s');
  }

  /** Two different deployments: passes over one never touch the pods created for the other if and only if they are apart. */
  lemma UntouchedExactly(d: Deployment, e: Deployment)
    requires d.key != e.key
    ensures NeverTouches(d, e) <==> Apart(d, e)
  {
    if Apart(d, e) {
      forall r: int32, j: nat, s, s' | Pass(d.(replicas := r), s, s') && CreatedFor(e, j, s.pods)
        ensures CreatedFor(e, j, s'.pods) && s'.pods[NewKey(e, j)] == s.pods[NewKey(e, j)]
      {
        OtherDeploymentUntouched(d.(replicas := r), s, s', e, j);
      }
    } else {
      OnePodTrimmed(d.(replicas := 0), e);
      assert !CreatedFor(e, 0, OnePod(e).(pods := map[]).pods);
    }
  }
}
