/** Node-local volumes: one pod, one node, over every run. */
module VolumeSafety {
  import opened Cluster
  import opened Scheduler
  import opened Usage
  import opened Reconcile
  import opened Convergence
  import opened Framing

  ghost predicate ClaimedOn(d: Deployment, volumes: Volumes, v: ObjectKey, n: string)
  {
    v in volumes && Mounted(d, v) && volumes[v].nodeName == n && n != ""
  }

  /** The owned pods carry the names the controller gives them. */
  ghost predicate Named(d: Deployment, pods: Pods)
  {
    forall k :: k in Mine(d, pods) ==> exists i: nat :: k == NewKey(d, i)
  }

  /** At most one owned pod; claims agree; every owned pod sits on the claimed node. */
  ghost predicate Safe(d: Deployment, s: State)
  {
    && Named(d, s.pods)
    && |Mine(d, s.pods)| <= 1
    && (forall v, w, n, m :: ClaimedOn(d, s.volumes, v, n) && ClaimedOn(d, s.volumes, w, m) ==> n == m)
    && (forall v, n, k :: ClaimedOn(d, s.volumes, v, n) && k in Mine(d, s.pods) ==> s.pods[k].spec.nodeName == n)
  }

  /** Every claim is still there, except on a volume that was itself deleted or created anew. */
  ghost predicate ClaimsPersist(d: Deployment, s: State, s': State)
  {
    forall v, n :: ClaimedOn(d, s.volumes, v, n) ==> (ClaimedOn(d, s'.volumes, v, n) <==> !VolumeStep(s, s', v))
  }

  // ---------------------------------------------------------------- the steps of a run

  /** A pass with any replica count; a negative count stops after the eviction sweep. */
  ghost predicate PassStep(d: Deployment, s: State, s': State)
  {
    exists r: int32 :: if r >= 0 then Pass(d.(replicas := r), s, s') else s' == s.(pods := Swept(d, s.nodes, s.pods))
  }

  /** Nodes appear, disappear, flip between ready and not ready, change capacity. */
  ghost predicate NodeStep(s: State, s': State)
  {
    s' == s.(nodes := s'.nodes)
  }

  ghost predicate DeleteStep(s: State, s': State)
  {
    exists k :: s' == s.(pods := s.pods - {k})
  }

  ghost predicate StatusStep(s: State, s': State)
  {
    exists k, phase, message :: k in s.pods && s' == s.(pods := s.pods[k := s.pods[k].(phase := phase, message := message)])
  }

  /** The volume is deleted, or created, possibly over an existing one: either way it comes out unclaimed. */
  ghost predicate VolumeStep(s: State, s': State, v: ObjectKey)
  {
    || s' == s.(volumes := s.volumes - {v})
    || exists vol: Volume :: vol.nodeName == "" && s' == s.(volumes := s.volumes[v := vol])
  }

  /** A pass over a different deployment that mounts none of the same volumes; neither lists the other's pods. */
  ghost predicate OtherPassStep(d: Deployment, s: State, s': State)
  {
    exists e :: Pass(e, s, s') && Unrelated(d, e)
  }

  ghost predicate Unrelated(d: Deployment, e: Deployment)
  {
    && Apart(d, e) && Apart(e, d)
    && (forall v :: Mounted(d, v) ==> !Mounted(e, v))
  }

  /** Anything else in the cluster, as long as it leaves this deployment's pods and mounted volumes alone. */
  ghost predicate OtherStep(d: Deployment, s: State, s': State)
  {
    && Mine(d, s'.pods) == Mine(d, s.pods)
    && (forall k :: k in Mine(d, s.pods) ==> s'.pods[k] == s.pods[k])
    && (forall v :: Mounted(d, v) ==> (v in s.volumes <==> v in s'.volumes) && (v in s.volumes ==> s'.volumes[v] == s.volumes[v]))
  }

  ghost predicate Step(d: Deployment, s: State, s': State)
  {
    || PassStep(d, s, s') || OtherPassStep(d, s, s') || NodeStep(s, s')
    || DeleteStep(s, s') || StatusStep(s, s') || (exists v :: VolumeStep(s, s', v)) || OtherStep(d, s, s')
  }

  // ---------------------------------------------------------------- claims

  lemma {:induction false} ClaimedNodeMeaning(volumes: Volumes, namespace: string, mounts: seq<string>)
    ensures ClaimedNode(volumes, namespace, mounts) == "" <==>
      forall i :: 0 <= i < |mounts| ==> NodeOf(volumes, namespace, mounts[i]) == ""
    ensures ClaimedNode(volumes, namespace, mounts) != "" ==> exists i ::
      && 0 <= i < |mounts| && NodeOf(volumes, namespace, mounts[i]) == ClaimedNode(volumes, namespace, mounts)
      && forall j :: 0 <= j < i ==> NodeOf(volumes, namespace, mounts[j]) == ""
  {
    if mounts != [] && NodeOf(volumes, namespace, mounts[0]) == "" {
      var rest := mounts[1..];
      ClaimedNodeMeaning(volumes, namespace, rest);
      assert forall i :: 0 <= i < |rest| ==> mounts[i + 1] == rest[i];
      if ClaimedNode(volumes, namespace, rest) != "" {
        var i :| 0 <= i < |rest| && NodeOf(volumes, namespace, rest[i]) == ClaimedNode(volumes, namespace, rest)
          && forall j :: 0 <= j < i ==> NodeOf(volumes, namespace, rest[j]) == "";
        assert forall j :: 0 < j < i + 1 ==> mounts[j] == rest[j - 1];
        assert NodeOf(volumes, namespace, mounts[i + 1]) == ClaimedNode(volumes, namespace, mounts);
      } else {
        assert forall i :: 0 < i < |mounts| ==> mounts[i] == rest[i - 1];
      }
    }
  }

  /** The node a volume is claimed on; empty when it is unclaimed or does not exist. */
  function NodeOf(volumes: Volumes, namespace: string, name: string): string
  {
    var k := ObjectKey(namespace, name);
    if k in volumes then volumes[k].nodeName else ""
  }

  /** A pod created while some mounted volume is claimed is created on the claimed node. */
  lemma NewPodFollowsClaim(d: Deployment, s: State, v: ObjectKey, n: string)
    requires Safe(d, s) && ClaimedOn(d, s.volumes, v, n)
    ensures NewNode(d, ClaimedNode(s.volumes, d.key.namespace, d.template.mounts)) == n
  {
    ClaimedNodeMeaning(s.volumes, d.key.namespace, d.template.mounts);
    var c := ClaimedNode(s.volumes, d.key.namespace, d.template.mounts);
    assert NodeOf(s.volumes, d.key.namespace, v.name) == n;
    var i :| 0 <= i < |d.template.mounts| && NodeOf(s.volumes, d.key.namespace, d.template.mounts[i]) == c;
    assert ClaimedOn(d, s.volumes, ObjectKey(d.key.namespace, d.template.mounts[i]), c);
  }

  /** An owned pod after a pass is either a pod owned before, on the same node if it had one, or a new one. */
  lemma PodOrigin(d: Deployment, s: State, z: Sizing, cs: seq<Candidate>, s': State, k: ObjectKey)
    requires PassVia(d, s, z, cs, s') && k in Mine(d, s'.pods)
    ensures (k in Mine(d, s.pods) && (s.pods[k].spec.nodeName != "" ==> s'.pods[k].spec.nodeName == s.pods[k].spec.nodeName))
      || (var n := NewNode(d, ClaimedNode(s.volumes, d.key.namespace, d.template.mounts));
          n != "" ==> s'.pods[k].spec.nodeName == n)
  {
    var base := Swept(d, s.nodes, s.pods);
    if z.Grow? {
      GrownAt(d, ClaimedNode(s.volumes, d.key.namespace, d.template.mounts), base, z.ordinals, k);
    }
  }

  lemma ClaimedPodsStay(d: Deployment, s: State, s': State, v: ObjectKey, n: string, k: ObjectKey)
    requires Safe(d, s) && Pass(d, s, s')
    requires ClaimedOn(d, s.volumes, v, n) && k in Mine(d, s'.pods)
    ensures s'.pods[k].spec.nodeName == n
  {
    var z, cs :| PassVia(d, s, z, cs, s');
    PodOrigin(d, s, z, cs, s', k);
    NewPodFollowsClaim(d, s, v, n);
    assert k in Mine(d, s.pods) ==> s.pods[k].spec.nodeName == n;
  }

  lemma AtMostOne(d: Deployment, s: State, s': State)
    requires d.template.mounts != []
    requires Safe(d, s) && Pass(d, s, s')
    ensures |Mine(d, s'.pods)| <= 1
  {
    Converges(d, s, s');
    SubsetSize(Survivors(d, s.nodes, s.pods), Mine(d, s.pods));
  }

  /** A claim found after a pass was there before, or was stamped with the node of the only owned pod. */
  lemma ClaimOrigin(d: Deployment, s: State, s': State, v: ObjectKey, n: string)
    requires d.template.mounts != []
    requires Safe(d, s) && Pass(d, s, s')
    requires ClaimedOn(d, s'.volumes, v, n)
    ensures ClaimedOn(d, s.volumes, v, n) || exists k :: k in Mine(d, s'.pods) && s'.pods[k].spec.nodeName == n
  {
  }

  lemma PodsOnClaimedNode(d: Deployment, s: State, s': State, v: ObjectKey, n: string, k: ObjectKey)
    requires d.template.mounts != []
    requires Safe(d, s) && Pass(d, s, s')
    requires ClaimedOn(d, s'.volumes, v, n) && k in Mine(d, s'.pods)
    ensures s'.pods[k].spec.nodeName == n
  {
    ClaimOrigin(d, s, s', v, n);
    if ClaimedOn(d, s.volumes, v, n) {
      ClaimedPodsStay(d, s, s', v, n, k);
    } else {
      var j :| j in Mine(d, s'.pods) && s'.pods[j].spec.nodeName == n;
      AtMostOne(d, s, s');
      TwoElements(Mine(d, s'.pods), j, k);
    }
  }

  lemma ClaimsAgreeAfter(d: Deployment, s: State, s': State, v: ObjectKey, n: string, w: ObjectKey, m: string)
    requires d.template.mounts != []
    requires Safe(d, s) && Pass(d, s, s')
    requires ClaimedOn(d, s'.volumes, v, n) && ClaimedOn(d, s'.volumes, w, m)
    ensures n == m
  {
    ClaimOrigin(d, s, s', v, n);
    ClaimOrigin(d, s, s', w, m);
    if k :| k in Mine(d, s'.pods) {
      PodsOnClaimedNode(d, s, s', v, n, k);
      PodsOnClaimedNode(d, s, s', w, m, k);
    }
  }

  lemma PassKeepsNames(d: Deployment, s: State, s': State)
    requires Named(d, s.pods) && Pass(d, s, s')
    ensures Named(d, s'.pods)
  {
    var z, cs :| PassVia(d, s, z, cs, s');
    forall k | k in Mine(d, s'.pods) ensures exists i: nat :: k == NewKey(d, i) {
      if k in s.pods {
        LabelsOrigin(d, s, z, cs, s', k);
        if k in Mine(d, s.pods) {
        } else {
          assert z.Grow? && k in NewKeys(d, z.ordinals) by {
            if !(z.Grow? && k in NewKeys(d, z.ordinals)) {
              ForeignPodVia(d, s, z, cs, s', k);
            }
          }
        }
      } else {
        OnlyOrdinalsAppear(d, s, s', k);
      }
    }
  }

  /** Claims that are all still there are not on volumes that came out unclaimed. */
  lemma KeptClaimsPersist(d: Deployment, s: State, s': State)
    requires forall v, n :: ClaimedOn(d, s.volumes, v, n) ==> ClaimedOn(d, s'.volumes, v, n)
    ensures ClaimsPersist(d, s, s')
  {
  }

  lemma PassKeepsClaims(d: Deployment, s: State, s': State)
    requires Pass(d, s, s')
    ensures ClaimsPersist(d, s, s')
  {
    KeptClaimsPersist(d, s, s');
  }

  lemma PassIsSafe(d: Deployment, s: State, s': State)
    requires d.template.mounts != []
    requires Safe(d, s) && Pass(d, s, s')
    ensures Safe(d, s') && ClaimsPersist(d, s, s')
  {
    AtMostOne(d, s, s');
    PassKeepsNames(d, s, s');
    PassKeepsClaims(d, s, s');
    forall v, w, n, m | ClaimedOn(d, s'.volumes, v, n) && ClaimedOn(d, s'.volumes, w, m) ensures n == m {
      ClaimsAgreeAfter(d, s, s', v, n, w, m);
    }
    forall v, n, k | ClaimedOn(d, s'.volumes, v, n) && k in Mine(d, s'.pods) ensures s'.pods[k].spec.nodeName == n {
      PodsOnClaimedNode(d, s, s', v, n, k);
    }
  }

  /** The replica count plays no part in ownership, mounts or claims. */
  lemma SafeAnyReplicas(d: Deployment, r: int32, s: State)
    ensures Safe(d.(replicas := r), s) <==> Safe(d, s)
  {
    var e := d.(replicas := r);
    assert Mine(e, s.pods) == Mine(d, s.pods);
    assert forall i: nat :: NewKey(e, i) == NewKey(d, i);
    assert forall v, n :: ClaimedOn(e, s.volumes, v, n) <==> ClaimedOn(d, s.volumes, v, n);
  }

  /** Owned pods shrink to a subset with unchanged nodes, and so do the claims. */
  lemma ShrinkIsSafe(d: Deployment, s: State, s': State)
    requires Safe(d, s)
    requires Mine(d, s'.pods) <= Mine(d, s.pods)
    requires forall k :: k in Mine(d, s'.pods) ==> s'.pods[k].spec.nodeName == s.pods[k].spec.nodeName
    requires forall v, n :: ClaimedOn(d, s'.volumes, v, n) ==> ClaimedOn(d, s.volumes, v, n)
    ensures Safe(d, s')
  {
    SubsetSize(Mine(d, s'.pods), Mine(d, s.pods));
  }

  lemma VolumeStepIsSafe(d: Deployment, s: State, s': State, v: ObjectKey)
    requires Safe(d, s) && VolumeStep(s, s', v)
    ensures Safe(d, s') && ClaimsPersist(d, s, s')
  {
    ShrinkIsSafe(d, s, s');
  }

  // ---------------------------------------------------------------- other deployments take "other" steps

  lemma OtherPassIsOtherStep(d: Deployment, e: Deployment, s: State, s': State)
    requires Pass(e, s, s') && Named(d, s.pods) && Unrelated(d, e)
    ensures OtherStep(d, s, s')
  {
    forall k | k in Mine(d, s.pods) ensures k in Mine(d, s'.pods) && s'.pods[k] == s.pods[k] {
      var j: nat :| k == NewKey(d, j);
      OtherDeploymentUntouched(e, s, s', d, j);
    }
    forall k | k in Mine(d, s'.pods) ensures k in Mine(d, s.pods) {
      var z, cs :| PassVia(e, s, z, cs, s');
      LabelsOrigin(e, s, z, cs, s', k);
    }
  }

  /** A pass creates only its own pods and relabels none. */
  lemma LabelsOrigin(e: Deployment, s: State, z: Sizing, cs: seq<Candidate>, s': State, k: ObjectKey)
    requires PassVia(e, s, z, cs, s') && k in s'.pods
    ensures (k in s.pods && s'.pods[k].labels == s.pods[k].labels)
      || (k.namespace == e.key.namespace && Owner(s'.pods[k].labels) == e.key.name)
  {
    if z.Grow? {
      GrownAt(e, ClaimedNode(s.volumes, e.key.namespace, e.template.mounts), Swept(e, s.nodes, s.pods), z.ordinals, k);
    }
  }

  /** Safety is kept by every step. */
  lemma StepIsSafe(d: Deployment, s: State, s': State)
    requires d.template.mounts != []
    requires Safe(d, s) && Step(d, s, s')
    ensures Safe(d, s') && ClaimsPersist(d, s, s')
  {
    if PassStep(d, s, s') {
      PassStepIsSafe(d, s, s');
    } else if OtherPassStep(d, s, s') {
      var e :| Pass(e, s, s') && Unrelated(d, e);
      OtherPassIsOtherStep(d, e, s, s');
      OtherStepIsSafe(d, s, s');
    } else if OtherStep(d, s, s') {
      OtherStepIsSafe(d, s, s');
    } else if v :| VolumeStep(s, s', v) {
      VolumeStepIsSafe(d, s, s', v);
    } else {
      SmallStepIsSafe(d, s, s');
    }
  }

  lemma PassStepIsSafe(d: Deployment, s: State, s': State)
    requires d.template.mounts != []
    requires Safe(d, s) && PassStep(d, s, s')
    ensures Safe(d, s') && ClaimsPersist(d, s, s')
  {
    var r: int32 :| if r >= 0 then Pass(d.(replicas := r), s, s') else s' == s.(pods := Swept(d, s.nodes, s.pods));
    if r >= 0 {
      var e := d.(replicas := r);
      SafeAnyReplicas(d, r, s);
      PassIsSafe(e, s, s');
      SafeAnyReplicas(d, r, s');
      assert forall v, n :: ClaimedOn(d, s.volumes, v, n) ==> ClaimedOn(e, s.volumes, v, n);
      assert forall v, n :: ClaimedOn(e, s'.volumes, v, n) <==> ClaimedOn(d, s'.volumes, v, n);
    } else {
      SweptIsMine(d, s.nodes, s.pods);
      ShrinkIsSafe(d, s, s');
      KeptClaimsPersist(d, s, s');
    }
  }

  lemma OtherStepIsSafe(d: Deployment, s: State, s': State)
    requires Safe(d, s) && OtherStep(d, s, s')
    ensures Safe(d, s') && ClaimsPersist(d, s, s')
  {
    ShrinkIsSafe(d, s, s');
    KeptClaimsPersist(d, s, s');
  }

  lemma SmallStepIsSafe(d: Deployment, s: State, s': State)
    requires Safe(d, s)
    requires NodeStep(s, s') || DeleteStep(s, s') || StatusStep(s, s')
    ensures Safe(d, s') && ClaimsPersist(d, s, s')
  {
    ShrinkIsSafe(d, s, s');
    KeptClaimsPersist(d, s, s');
  }

  ghost predicate Run(d: Deployment, states: seq<State>)
  {
    && states != []
    && (forall i :: 0 <= i < |states| - 1 ==> Step(d, states[i], states[i + 1]))
  }

  lemma {:induction false} RunIsSafe(d: Deployment, states: seq<State>, j: nat)
    requires d.template.mounts != []
    requires Run(d, states) && Safe(d, states[0])
    requires j < |states|
    ensures Safe(d, states[j])
  {
    if j > 0 {
      RunIsSafe(d, states, j - 1);
      StepIsSafe(d, states[j - 1], states[j]);
    }
  }

  /** The volume is neither deleted nor created anew between two states of a run. */
  ghost predicate LeftAlone(states: seq<State>, v: ObjectKey, i: nat, j: nat)
    requires i <= j < |states|
  {
    forall m :: i <= m < j ==> !VolumeStep(states[m], states[m + 1], v)
  }

  lemma StepKeepsClaim(d: Deployment, s: State, s': State, v: ObjectKey, n: string)
    requires d.template.mounts != [] && Safe(d, s) && Step(d, s, s')
    requires ClaimedOn(d, s.volumes, v, n) && !VolumeStep(s, s', v)
    ensures ClaimedOn(d, s'.volumes, v, n)
  {
    StepIsSafe(d, s, s');
  }

  lemma {:induction false} ClaimStays(d: Deployment, states: seq<State>, v: ObjectKey, n: string, i: nat, j: nat)
    requires d.template.mounts != []
    requires Run(d, states) && Safe(d, states[0])
    requires i <= j < |states| && LeftAlone(states, v, i, j)
    requires ClaimedOn(d, states[i].volumes, v, n)
    ensures ClaimedOn(d, states[j].volumes, v, n)
    decreases j
  {
    if i < j {
      ClaimStays(d, states, v, n, i, j - 1);
      RunIsSafe(d, states, j - 1);
      var m := j - 1;
      assert !VolumeStep(states[m], states[m + 1], v);
      StepKeepsClaim(d, states[m], states[m + 1], v, n);
    }
  }

  /** Volume placement, over every run that starts without pods and with agreeing claims: there is never more than one
      owned pod, it is on the node of every claim, and a claim stays until its own volume is deleted or created anew. */
  lemma VolumePlacement(d: Deployment, states: seq<State>)
    requires d.template.mounts != []
    requires Run(d, states)
    requires Mine(d, states[0].pods) == {}
    requires forall v, w, n, m :: ClaimedOn(d, states[0].volumes, v, n) && ClaimedOn(d, states[0].volumes, w, m) ==> n == m
    ensures forall j :: 0 <= j < |states| ==> |Mine(d, states[j].pods)| <= 1
    ensures forall j, v, n, k :: 0 <= j < |states| && ClaimedOn(d, states[j].volumes, v, n) && k in Mine(d, states[j].pods) ==>
      states[j].pods[k].spec.nodeName == n
    ensures forall i, j, v, n :: 0 <= i <= j < |states| && ClaimedOn(d, states[i].volumes, v, n) && LeftAlone(states, v, i, j) ==>
      ClaimedOn(d, states[j].volumes, v, n)
  {
    forall j | 0 <= j < |states| ensures Safe(d, states[j]) {
      RunIsSafe(d, states, j);
    }
    forall i, j, v, n | 0 <= i <= j < |states| && ClaimedOn(d, states[i].volumes, v, n) && LeftAlone(states, v, i, j)
      ensures ClaimedOn(d, states[j].volumes, v, n)
    {
      ClaimStays(d, states, v, n, i, j);
    }
  }
}
