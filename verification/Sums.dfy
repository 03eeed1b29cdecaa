/** Sums over finite maps, independent of the order in which the keys are visited. */
module Sums {

  ghost function Pick<K>(keys: set<K>): (k: K)
    requires keys != {}
    ensures k in keys
  {
    var k :| k in keys;
    k
  }

  ghost function Total<K>(w: map<K, int>): int
    decreases |w|
  {
    if w.Keys == {} then 0
    else
      var k := Pick(w.Keys);
      w[k] + Total(w - {k})
  }

  /** Any key may be taken out first. */
  lemma {:induction false} TotalRemove<K>(w: map<K, int>, k: K)
    requires k in w
    ensures Total(w) == w[k] + Total(w - {k})
    decreases |w|
  {
    var j := Pick(w.Keys);
    if j != k {
      TotalRemove(w - {j}, k);
      TotalRemove(w - {k}, j);
      assert w - {j} - {k} == w - {k} - {j};
    }
  }

  lemma TotalInsert<K>(w: map<K, int>, k: K, v: int)
    requires k !in w
    ensures Total(w[k := v]) == Total(w) + v
  {
    TotalRemove(w[k := v], k);
    assert w[k := v] - {k} == w;
  }

  lemma TotalUpdate<K>(w: map<K, int>, k: K, v: int)
    requires k in w
    ensures Total(w[k := v]) == Total(w) - w[k] + v
  {
    TotalRemove(w, k);
    TotalRemove(w[k := v], k);
    assert w[k := v] - {k} == w - {k};
  }

  lemma {:induction false} TotalMonotone<K>(w: map<K, int>, v: map<K, int>)
    requires w.Keys == v.Keys
    requires forall k :: k in w ==> w[k] <= v[k]
    ensures Total(w) <= Total(v)
    decreases |w|
  {
    if w.Keys == {} {
      assert v == map[];
    } else {
      var k :| k in w;
      TotalRemove(w, k);
      TotalRemove(v, k);
      TotalMonotone(w - {k}, v - {k});
    }
  }

  lemma {:induction false} TotalAdd<K>(w: map<K, int>, v: map<K, int>, u: map<K, int>)
    requires w.Keys == v.Keys == u.Keys
    requires forall k :: k in w ==> u[k] == w[k] + v[k]
    ensures Total(u) == Total(w) + Total(v)
    decreases |w|
  {
    if w.Keys == {} {
      assert v == map[] && u == map[];
    } else {
      var k :| k in w;
      TotalRemove(w, k);
      TotalRemove(v, k);
      TotalRemove(u, k);
      TotalAdd(w - {k}, v - {k}, u - {k});
    }
  }

  lemma {:induction false} TotalZero<K>(w: map<K, int>)
    requires forall k :: k in w ==> w[k] == 0
    ensures Total(w) == 0
    decreases |w|
  {
    if w.Keys != {} {
      var k :| k in w;
      TotalRemove(w, k);
      TotalZero(w - {k});
    }
  }

  lemma TotalNonNegative<K>(w: map<K, int>)
    requires forall k :: k in w ==> w[k] >= 0
    ensures Total(w) >= 0
  {
    var z := map k | k in w :: 0;
    TotalZero(z);
    TotalMonotone(z, w);
  }

  /** Every weight is covered by a weight of the same key in a non-negative map. */
  lemma {:induction false} TotalDominated<K>(w: map<K, int>, v: map<K, int>)
    requires forall k :: k in v ==> v[k] >= 0
    requires forall k :: k in w ==> w[k] <= if k in v then v[k] else 0
    ensures Total(w) <= Total(v)
    decreases |w|
  {
    if w.Keys == {} {
      TotalNonNegative(v);
    } else {
      var k :| k in w;
      TotalRemove(w, k);
      var rest := v - {k};
      TotalDominated(w - {k}, rest);
      if k in v {
        TotalRemove(v, k);
      } else {
        assert rest == v;
      }
    }
  }

  /** Only one key carries weight. */
  lemma TotalSingle<K>(w: map<K, int>, k: K)
    requires k in w
    requires forall j :: j in w && j != k ==> w[j] == 0
    ensures Total(w) == w[k]
  {
    TotalRemove(w, k);
    TotalZero(w - {k});
  }

  /** A listing names every key of a map exactly once, in any order. */
  ghost predicate Listing<K>(order: seq<K>, keys: set<K>)
  {
    && (forall k :: k in keys ==> k in order)
    && (forall i :: 0 <= i < |order| ==> order[i] in keys)
    && (forall i, j :: 0 <= i < j < |order| ==> order[i] != order[j])
  }

  lemma {:induction false} ListingCardinality<K>(order: seq<K>, keys: set<K>)
    requires Listing(order, keys)
    ensures |order| == |keys|
    decreases |order|
  {
    if |order| == 0 {
      assert keys == {};
    } else {
      var last := order[|order| - 1];
      var rest := order[..|order| - 1];
      assert order == rest + [last];
      assert Listing(rest, keys - {last});
      ListingCardinality(rest, keys - {last});
    }
  }

  /** The part of a map that the first `i` keys of a listing reach. */
  ghost function Visited<K, V>(m: map<K, V>, order: seq<K>, i: nat): map<K, V>
    requires i <= |order|
  {
    map k | k in m && k in order[..i] :: m[k]
  }

  lemma VisitedNext<K, V>(m: map<K, V>, order: seq<K>, i: nat)
    requires Listing(order, m.Keys) && i < |order|
    ensures order[i] in m && order[i] !in Visited(m, order, i)
    ensures Visited(m, order, i + 1) == Visited(m, order, i)[order[i] := m[order[i]]]
  {
    assert order[i] in order;
    assert order[..i + 1] == order[..i] + [order[i]];
  }

  lemma VisitedAll<K, V>(m: map<K, V>, order: seq<K>)
    requires Listing(order, m.Keys)
    ensures Visited(m, order, |order|) == m
  {
    assert order[..|order|] == order;
  }

  /** Go's iteration over a map: some order, which the program cannot rely on. */
  method ListKeys<K(==)>(keys: set<K>) returns (order: seq<K>)
    ensures Listing(order, keys)
  {
    order := [];
    var rest := keys;
    while rest != {}
      invariant rest <= keys
      invariant Listing(order, keys - rest)
      decreases |rest|
    {
      var k :| k in rest;
      rest := rest - {k};
      order := order + [k];
    }
  }
}
