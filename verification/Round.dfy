/** `reconcileAll`: one round of passes brings every deployment to its own wanted count at the same time. */
module Round {
  import opened Cluster
  import opened Reconcile
  import opened Convergence
  import opened VolumeSafety

  ghost predicate Passes(ds: seq<Deployment>, states: seq<State>)
  {
    && |states| == |ds| + 1
    && (forall i :: 0 <= i < |ds| ==> Pass(ds[i], states[i], states[i + 1]))
  }

  lemma OtherStepReflexive(d: Deployment, a: State)
    ensures OtherStep(d, a, a)
  {
  }

  lemma OtherStepTransitive(d: Deployment, a: State, b: State, c: State)
    requires OtherStep(d, a, b) && OtherStep(d, b, c)
    ensures OtherStep(d, a, c)
  {
  }

  lemma OtherStepKeepsNames(d: Deployment, a: State, b: State)
    requires OtherStep(d, a, b) && Named(d, a.pods)
    ensures Named(d, b.pods)
  {
  }

  /** A stretch of passes over unrelated deployments is one "other" step. */
  lemma {:induction false} OthersStretch(d: Deployment, ds: seq<Deployment>, states: seq<State>, lo: nat, hi: nat)
    requires Passes(ds, states) && lo <= hi <= |ds|
    requires forall j :: lo <= j < hi ==> Unrelated(d, ds[j])
    requires Named(d, states[lo].pods)
    ensures OtherStep(d, states[lo], states[hi]) && Named(d, states[hi].pods) && states[hi].nodes == states[lo].nodes
    decreases hi
  {
    if lo == hi {
      OtherStepReflexive(d, states[lo]);
    } else {
      var last := hi - 1;
      OthersStretch(d, ds, states, lo, last);
      assert Pass(ds[last], states[last], states[last + 1]);
      StretchNext(d, ds[last], states[lo], states[last], states[hi]);
    }
  }

  lemma StretchNext(d: Deployment, e: Deployment, first: State, a: State, b: State)
    requires OtherStep(d, first, a) && Named(d, a.pods) && a.nodes == first.nodes
    requires Pass(e, a, b) && Unrelated(d, e)
    ensures OtherStep(d, first, b) && Named(d, b.pods) && b.nodes == first.nodes
  {
    OneOther(d, e, a, b);
    OtherStepTransitive(d, first, a, b);
  }

  lemma OneOther(d: Deployment, e: Deployment, a: State, b: State)
    requires Pass(e, a, b) && Unrelated(d, e) && Named(d, a.pods)
    ensures OtherStep(d, a, b) && Named(d, b.pods) && b.nodes == a.nodes
  {
    OtherPassIsOtherStep(d, e, a, b);
    OtherStepKeepsNames(d, a, b);
  }

  lemma {:induction false} SameClaimedNode(a: Volumes, b: Volumes, namespace: string, mounts: seq<string>)
    requires forall i :: 0 <= i < |mounts| ==> NodeOf(a, namespace, mounts[i]) == NodeOf(b, namespace, mounts[i])
    ensures ClaimedNode(a, namespace, mounts) == ClaimedNode(b, namespace, mounts)
  {
    if mounts != [] {
      assert NodeOf(a, namespace, mounts[0]) == NodeOf(b, namespace, mounts[0]);
      SameClaimedNode(a, b, namespace, mounts[1..]);
    }
  }

  /** What other deployments do leaves this deployment's starting point as it was. */
  lemma OtherStepKeepsStart(d: Deployment, a: State, b: State)
    requires OtherStep(d, a, b) && a.nodes == b.nodes
    ensures Survivors(d, b.nodes, b.pods) == Survivors(d, a.nodes, a.pods)
    ensures NewNodeAlive(d, b) <==> NewNodeAlive(d, a)
  {
    forall k ensures k in Survivors(d, b.nodes, b.pods) <==> k in Survivors(d, a.nodes, a.pods) {
      assert k in Mine(d, b.pods) <==> k in Mine(d, a.pods);
    }
    forall i | 0 <= i < |d.template.mounts|
      ensures NodeOf(a.volumes, d.key.namespace, d.template.mounts[i]) == NodeOf(b.volumes, d.key.namespace, d.template.mounts[i])
    {
      assert Mounted(d, ObjectKey(d.key.namespace, d.template.mounts[i]));
    }
    SameClaimedNode(a.volumes, b.volumes, d.key.namespace, d.template.mounts);
  }

  /** Convergence of a whole round: for pairwise unrelated deployments, in whatever order they are visited, every one of
      them ends the round with exactly its wanted number of pods, all alive, unless it had to create pods and the node
      they are pinned to is not ready; all of this is decided by the state in which the round began. */
  lemma RoundConverges(ds: seq<Deployment>, states: seq<State>, i: nat)
    requires Passes(ds, states) && i < |ds|
    requires forall j :: 0 <= j < |ds| && j != i ==> Unrelated(ds[i], ds[j])
    requires Named(ds[i], states[0].pods)
    ensures var d, first, last := ds[i], states[0], states[|ds|];
      && (|Mine(d, last.pods)| == Want(d) <==> |Survivors(d, first.nodes, first.pods)| >= Want(d) || NewNodeAlive(d, first))
      && (forall k :: k in Mine(d, last.pods) ==> Alive(last.nodes, last.pods[k]))
  {
    var d := ds[i];
    OthersStretch(d, ds, states, 0, i);
    OtherStepKeepsStart(d, states[0], states[i]);
    assert Pass(d, states[i], states[i + 1]);
    Converges(d, states[i], states[i + 1]);
    PassKeepsNames(d, states[i], states[i + 1]);
    OthersStretch(d, ds, states, i + 1, |ds|);
    assert states[i + 1].nodes == states[i].nodes;
  }
}
