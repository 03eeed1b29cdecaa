/** internal/registry: typed registries sharing one string-keyed store. */
module Registry {
  import opened Sums
  import opened Store

  datatype Id = Id(kind: string, namespace: string, name: string)

  function Encode(id: Id): string
  {
    if id.namespace == "" then "/registry/" + id.kind + "/" + id.name
    else "/registry/" + id.kind + "/" + id.namespace + "/" + id.name
  }

  function ListPrefix(kind: string, namespace: string): string
  {
    if namespace == "" then "/registry/" + kind + "/" else "/registry/" + kind + "/" + namespace + "/"
  }

  predicate SlashFree(s: string) { forall i :: 0 <= i < |s| ==> s[i] != '/' }

  /** A name may contain slashes unless the object is cluster-scoped. */
  predicate Clean(id: Id)
  {
    SlashFree(id.kind) && SlashFree(id.namespace) && (id.namespace == "" ==> SlashFree(id.name))
  }

  // ---------------------------------------------------------------- the encoding

  function Tail(id: Id): string
  {
    if id.namespace == "" then id.name else id.namespace + "/" + id.name
  }

  lemma EncodeParts(id: Id)
    ensures Encode(id) == "/registry/" + (id.kind + "/" + Tail(id))
  {
  }

  /** A slash-free head is determined by the first slash. */
  lemma SplitFirst(a: string, x: string, b: string, y: string)
    requires SlashFree(a) && SlashFree(b)
    requires a + "/" + x == b + "/" + y
    ensures a == b && x == y
  {
    var s := a + "/" + x;
    assert s[|a|] == '/' && s[|b|] == '/';
    assert forall i :: 0 <= i < |a| ==> s[i] != '/';
    assert forall i :: 0 <= i < |b| ==> s[i] != '/';
    assert |a| == |b|;
    assert a == s[..|a|] == b;
    assert x == s[|a| + 1..] == y;
  }

  lemma StripPrefix(p: string, x: string, y: string)
    requires p + x == p + y
    ensures x == y
  {
    assert x == (p + x)[|p|..] == y;
  }

  lemma NoSlashNoSplit(name: string, head: string, rest: string)
    ensures SlashFree(name) ==> name != head + "/" + rest
  {
    assert (head + "/" + rest)[|head|] == '/';
  }

  function Head(id: Id): string
  {
    if id.namespace == "" then "" else id.namespace + "/"
  }

  /** The part `x` of a's namespace path that b's lacks has moved to the front of b's name. */
  predicate Shifted(a: Id, b: Id, x: string)
  {
    Head(a) == Head(b) + x && b.name == x + a.name
  }

  lemma SameKeySameTail(a: Id, b: Id)
    requires SlashFree(a.kind) && SlashFree(b.kind)
    ensures Encode(a) == Encode(b) <==> a.kind == b.kind && Tail(a) == Tail(b)
  {
    EncodeParts(a);
    EncodeParts(b);
    if Encode(a) == Encode(b) {
      StripPrefix("/registry/", a.kind + "/" + Tail(a), b.kind + "/" + Tail(b));
      SplitFirst(a.kind, Tail(a), b.kind, Tail(b));
    }
  }

  lemma TailIsHeadAndName(id: Id)
    ensures Tail(id) == Head(id) + id.name
  {
  }

  lemma ShiftFound(a: Id, b: Id)
    requires Tail(a) == Tail(b) && |Head(b)| <= |Head(a)|
    ensures Shifted(a, b, Head(a)[|Head(b)|..])
  {
    TailIsHeadAndName(a);
    TailIsHeadAndName(b);
    var t, x := Tail(a), Head(a)[|Head(b)|..];
    assert Head(a) == t[..|Head(a)|] && Head(b) == t[..|Head(b)|];
    assert Head(a) == Head(b) + x;
    assert b.name == t[|Head(b)|..] && a.name == t[|Head(a)|..];
    assert t[|Head(b)|..] == x + t[|Head(a)|..];
  }

  lemma ShiftedSameTail(a: Id, b: Id, x: string)
    requires Shifted(a, b, x)
    ensures Tail(a) == Tail(b)
  {
    TailIsHeadAndName(a);
    TailIsHeadAndName(b);
    assert Head(b) + x + a.name == Head(b) + (x + a.name);
  }

  /** Two objects share a key exactly when their kinds agree and one's namespace path continues in the other's name. */
  lemma EncodeCollides(a: Id, b: Id)
    requires SlashFree(a.kind) && SlashFree(b.kind)
    ensures Encode(a) == Encode(b) <==> a.kind == b.kind && exists x :: Shifted(a, b, x) || Shifted(b, a, x)
  {
    SameKeySameTail(a, b);
    if Tail(a) == Tail(b) {
      if |Head(b)| <= |Head(a)| {
        ShiftFound(a, b);
      } else {
        ShiftFound(b, a);
      }
    }
    if x :| Shifted(a, b, x) || Shifted(b, a, x) {
      if Shifted(a, b, x) {
        ShiftedSameTail(a, b, x);
      } else {
        ShiftedSameTail(b, a, x);
      }
    }
  }

  /** A cluster-scoped object named like the path of a namespaced one. */
  predicate Shadows(a: Id, b: Id)
  {
    a.namespace == "" && b.namespace != "" && a.name == b.namespace + "/" + b.name
  }

  /** With slash-free namespaces and arbitrary names, the only collision is a cluster-scoped object whose name is the
      namespace and name of the other. */
  lemma EncodeCollidesOnlyByShadow(a: Id, b: Id)
    requires SlashFree(a.kind) && SlashFree(b.kind) && SlashFree(a.namespace) && SlashFree(b.namespace)
    ensures Encode(a) == Encode(b) <==> a == b || (a.kind == b.kind && (Shadows(a, b) || Shadows(b, a)))
  {
    SameKeySameTail(a, b);
    if a.namespace != "" && b.namespace != "" && Tail(a) == Tail(b) {
      SplitFirst(a.namespace, a.name, b.namespace, b.name);
    }
  }

  /** Identities without a slash in a cluster-scoped name never share a key. */
  lemma EncodeInjective(a: Id, b: Id)
    requires Clean(a) && Clean(b) && Encode(a) == Encode(b)
    ensures a == b
  {
    EncodeCollidesOnlyByShadow(a, b);
    NoSlashNoSplit(a.name, b.namespace, b.name);
    NoSlashNoSplit(b.name, a.namespace, a.name);
  }

  /** A cluster-scoped name can shadow any namespaced object. */
  lemma SlashesCollide(kind: string, namespace: string, name: string)
    requires namespace != ""
    ensures Encode(Id(kind, namespace, name)) == Encode(Id(kind, "", namespace + "/" + name))
    ensures Id(kind, namespace, name) != Id(kind, "", namespace + "/" + name)
  {
    EncodeParts(Id(kind, namespace, name));
    EncodeParts(Id(kind, "", namespace + "/" + name));
  }

  lemma PrefixOfConcat(p: string, x: string, s: string)
    ensures p + x <= p + s <==> x <= s
  {
    if p + x <= p + s {
      assert x == (p + x)[|p|..];
      assert x == s[..|x|];
    }
    if x <= s {
      assert p + s == (p + x) + s[|x|..];
    }
  }

  /** A slash-free head followed by a slash is a prefix of another such string only if the heads agree. */
  lemma HeadPrefix(a: string, x: string, b: string, y: string)
    requires SlashFree(a) && SlashFree(b)
    ensures a + "/" + x <= b + "/" + y <==> a == b && x <= y
  {
    if a + "/" + x <= b + "/" + y {
      var rest := (b + "/" + y)[|a + "/" + x|..];
      assert a + "/" + (x + rest) == a + "/" + x + rest == b + "/" + y;
      SplitFirst(a, x + rest, b, y);
      assert x <= y;
    }
    if a == b && x <= y {
      assert b + "/" + y == (a + "/" + x) + y[|x|..];
    }
  }

  /** What the listing prefix of a kind and namespace selects among objects with arbitrary names: besides the objects of
      that namespace, the cluster-scoped ones whose name begins with its path. */
  lemma PrefixSelectsExactly(kind: string, namespace: string, id: Id)
    requires SlashFree(kind) && SlashFree(namespace) && SlashFree(id.kind) && SlashFree(id.namespace)
    ensures ListPrefix(kind, namespace) <= Encode(id) <==>
      id.kind == kind
      && (namespace == "" || id.namespace == namespace || (id.namespace == "" && namespace + "/" <= id.name))
  {
    EncodeParts(id);
    var tail := if namespace == "" then "" else namespace + "/";
    assert ListPrefix(kind, namespace) == "/registry/" + (kind + "/" + tail);
    PrefixOfConcat("/registry/", kind + "/" + tail, id.kind + "/" + Tail(id));
    HeadPrefix(kind, tail, id.kind, Tail(id));
    if namespace != "" && id.namespace != "" {
      assert namespace + "/" == namespace + "/" + "";
      HeadPrefix(namespace, "", id.namespace, id.name);
    }
  }

  /** Listing a namespace selects exactly the objects of that kind and namespace; the empty namespace selects the kind. */
  lemma PrefixSelects(kind: string, namespace: string, id: Id)
    requires SlashFree(kind) && SlashFree(namespace) && Clean(id)
    ensures ListPrefix(kind, namespace) <= Encode(id) <==> id.kind == kind && (namespace == "" || id.namespace == namespace)
  {
    PrefixSelectsExactly(kind, namespace, id);
    if namespace + "/" <= id.name {
      assert id.name[|namespace|] == '/';
    }
  }

  // ---------------------------------------------------------------- refinement

  type Tables = map<Id, Bytes>

  ghost predicate CleanTables(t: Tables) { forall id :: id in t ==> Clean(id) }

  /** The store holds exactly the encoded objects of all registries. */
  ghost predicate Represents(data: map<string, Bytes>, t: Tables)
  {
    && CleanTables(t)
    && (forall id :: id in t ==> Encode(id) in data && data[Encode(id)] == t[id])
    && (forall k :: k in data ==> exists id :: id in t && Encode(id) == k)
  }

  lemma RepresentsLookup(data: map<string, Bytes>, t: Tables, id: Id)
    requires Represents(data, t) && Clean(id)
    ensures Lookup(data, Encode(id)) == if id in t then Found(t[id]) else NotFound
  {
    if Encode(id) in data {
      var j :| j in t && Encode(j) == Encode(id);
      EncodeInjective(id, j);
    }
  }

  lemma RepresentsPut(data: map<string, Bytes>, t: Tables, id: Id, v: Bytes)
    requires Represents(data, t) && Clean(id)
    ensures Represents(data[Encode(id) := v], t[id := v])
  {
    var after, tables := data[Encode(id) := v], t[id := v];
    forall j | j in tables ensures Encode(j) in after && after[Encode(j)] == tables[j] {
      if Encode(j) == Encode(id) {
        EncodeInjective(id, j);
      }
    }
    forall k | k in after ensures exists j :: j in tables && Encode(j) == k {
      if k == Encode(id) {
        assert id in tables;
      } else {
        var j :| j in t && Encode(j) == k;
        assert j in tables;
      }
    }
  }

  lemma RepresentsDelete(data: map<string, Bytes>, t: Tables, id: Id)
    requires Represents(data, t) && Clean(id)
    ensures Represents(data - {Encode(id)}, t - {id})
  {
    var after, tables := data - {Encode(id)}, t - {id};
    forall j | j in tables ensures Encode(j) in after && after[Encode(j)] == tables[j] {
      if Encode(j) == Encode(id) {
        EncodeInjective(id, j);
      }
    }
    forall k | k in after ensures exists j :: j in tables && Encode(j) == k {
      var j :| j in t && Encode(j) == k;
      assert j in tables;
    }
  }

  /** The identities a listing must return. */
  ghost function Selected(t: Tables, kind: string, namespace: string): set<Id>
  {
    set id | id in t && id.kind == kind && (namespace == "" || id.namespace == namespace)
  }

  /** `out` holds the objects named by `ids`, each exactly once, in some order. */
  ghost predicate ObjectsOf(out: seq<Bytes>, ids: seq<Id>, t: Tables)
  {
    |out| == |ids| && forall i :: 0 <= i < |ids| ==> ids[i] in t && out[i] == t[ids[i]]
  }

  /** `id` is the selected object stored under `key`. */
  ghost predicate StoredUnder(data: map<string, Bytes>, t: Tables, kind: string, namespace: string, key: string, id: Id)
  {
    id in Selected(t, kind, namespace) && Encode(id) == key && key in data && t[id] == data[key]
  }

  /** A listing of the matching keys names every selected object exactly once. */
  lemma ListIsComplete(data: map<string, Bytes>, t: Tables, kind: string, namespace: string, order: seq<string>, ids: seq<Id>)
    requires Represents(data, t) && SlashFree(kind) && SlashFree(namespace)
    requires Listing(order, Matching(data, ListPrefix(kind, namespace)).Keys)
    requires |ids| == |order|
    requires forall j :: 0 <= j < |ids| ==> StoredUnder(data, t, kind, namespace, order[j], ids[j])
    ensures Listing(ids, Selected(t, kind, namespace))
  {
    forall id | id in Selected(t, kind, namespace) ensures id in ids {
      PrefixSelects(kind, namespace, id);
      var key := Encode(id);
      assert key in Matching(data, ListPrefix(kind, namespace)).Keys;
      var j :| 0 <= j < |order| && order[j] == key;
      EncodeInjective(id, ids[j]);
    }
  }

  /** A listed key belongs to a selected object. */
  lemma FindId(data: map<string, Bytes>, t: Tables, kind: string, namespace: string, key: string) returns (id: Id)
    requires Represents(data, t) && SlashFree(kind) && SlashFree(namespace)
    requires key in Matching(data, ListPrefix(kind, namespace))
    ensures StoredUnder(data, t, kind, namespace, key, id)
  {
    id :| id in t && Encode(id) == key;
    PrefixSelects(kind, namespace, id);
  }

  /** One registry. Several of them, of different kinds, share a store. */
  class Registry {
    const store: MemStore
    const kind: string

    constructor (store: MemStore, kind: string)
      ensures this.store == store && this.kind == kind
    {
      this.store, this.kind := store, kind;
    }

    method Put(namespace: string, name: string, obj: Bytes, ghost t: Tables)
      requires Represents(store.data, t) && Clean(Id(kind, namespace, name))
      modifies store
      ensures Represents(store.data, t[Id(kind, namespace, name) := obj])
    {
      RepresentsPut(store.data, t, Id(kind, namespace, name), obj);
      store.Put(Encode(Id(kind, namespace, name)), obj);
    }

    method Get(namespace: string, name: string, ghost t: Tables) returns (r: Answer)
      requires Represents(store.data, t) && Clean(Id(kind, namespace, name))
      ensures r == if Id(kind, namespace, name) in t then Found(t[Id(kind, namespace, name)]) else NotFound
    {
      RepresentsLookup(store.data, t, Id(kind, namespace, name));
      r := store.Get(Encode(Id(kind, namespace, name)));
    }

    method Delete(namespace: string, name: string, ghost t: Tables)
      requires Represents(store.data, t) && Clean(Id(kind, namespace, name))
      modifies store
      ensures Represents(store.data, t - {Id(kind, namespace, name)})
    {
      RepresentsDelete(store.data, t, Id(kind, namespace, name));
      store.Delete(Encode(Id(kind, namespace, name)));
    }

    method List(namespace: string, ghost t: Tables) returns (out: seq<Bytes>, ghost ids: seq<Id>)
      requires Represents(store.data, t) && SlashFree(kind) && SlashFree(namespace)
      ensures Listing(ids, Selected(t, kind, namespace))
      ensures ObjectsOf(out, ids, t)
    {
      var raw := store.List(ListPrefix(kind, namespace));
      var order;
      out, order := Values(raw);
      ids := FindIds(store.data, t, kind, namespace, order);
      ListIsComplete(store.data, t, kind, namespace, order, ids);
    }
  }

  /** The listing loop: one object per entry, in the map's order. */
  method Values(raw: map<string, Bytes>) returns (out: seq<Bytes>, order: seq<string>)
    ensures Listing(order, raw.Keys)
    ensures |out| == |order| && forall i :: 0 <= i < |order| ==> out[i] == raw[order[i]]
  {
    order := ListKeys(raw.Keys);
    out := [];
    for i := 0 to |order|
      invariant |out| == i && forall j :: 0 <= j < i ==> out[j] == raw[order[j]]
    {
      out := out + [raw[order[i]]];
    }
  }

  /** The object stored under a key that has one. */
  ghost function IdUnder(data: map<string, Bytes>, t: Tables, kind: string, namespace: string, key: string): (id: Id)
    requires exists id :: StoredUnder(data, t, kind, namespace, key, id)
    ensures StoredUnder(data, t, kind, namespace, key, id)
  {
    var id :| StoredUnder(data, t, kind, namespace, key, id);
    id
  }

  lemma FindIds(data: map<string, Bytes>, t: Tables, kind: string, namespace: string, order: seq<string>)
    returns (ids: seq<Id>)
    requires Represents(data, t) && SlashFree(kind) && SlashFree(namespace)
    requires forall i :: 0 <= i < |order| ==> order[i] in Matching(data, ListPrefix(kind, namespace))
    ensures |ids| == |order|
    ensures forall i :: 0 <= i < |ids| ==> StoredUnder(data, t, kind, namespace, order[i], ids[i])
  {
    forall i | 0 <= i < |order| ensures exists id :: StoredUnder(data, t, kind, namespace, order[i], id) {
      var id := FindId(data, t, kind, namespace, order[i]);
    }
    ids := seq(|order|, i requires 0 <= i < |order| => IdUnder(data, t, kind, namespace, order[i]));
  }

  // ---------------------------------------------------------------- runs over one shared store

  datatype Op = Save(id: Id, value: Bytes) | Remove(id: Id)

  function OnStore(data: map<string, Bytes>, op: Op): map<string, Bytes>
  {
    match op
    case Save(id, v) => data[Encode(id) := v]
    case Remove(id) => data - {Encode(id)}
  }

  function OnTables(t: Tables, op: Op): Tables
  {
    match op
    case Save(id, v) => t[id := v]
    case Remove(id) => t - {id}
  }

  function RunStore(ops: seq<Op>): map<string, Bytes>
  {
    if ops == [] then map[] else OnStore(RunStore(ops[..|ops| - 1]), ops[|ops| - 1])
  }

  function RunTables(ops: seq<Op>): Tables
  {
    if ops == [] then map[] else OnTables(RunTables(ops[..|ops| - 1]), ops[|ops| - 1])
  }

  /** After any sequence of operations by any registries, the shared store represents independent tables. */
  lemma {:induction false} RegistriesIndependent(ops: seq<Op>)
    requires forall i :: 0 <= i < |ops| ==> Clean(ops[i].id)
    ensures Represents(RunStore(ops), RunTables(ops))
  {
    if ops != [] {
      var n := |ops| - 1;
      RegistriesIndependent(ops[..n]);
      match ops[n]
      case Save(id, v) => RepresentsPut(RunStore(ops[..n]), RunTables(ops[..n]), id, v);
      case Remove(id) => RepresentsDelete(RunStore(ops[..n]), RunTables(ops[..n]), id);
    }
  }
}
