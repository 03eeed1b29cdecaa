/** internal/store: the plain in-memory store and the log-driven replicated map. */
module Store {
  import opened Names
  import opened Sums

  type Bytes = seq<bv8>

  const KEY_SIZE := 32

  datatype Answer = Found(value: Bytes) | NotFound

  // ---------------------------------------------------------------- memStore: the specification

  /** What every implementation of the store interface answers to `Get`. */
  function Lookup(data: map<string, Bytes>, key: string): Answer
  {
    if key in data then Found(data[key]) else NotFound
  }

  function Matching<V>(data: map<string, V>, prefix: string): map<string, V>
  {
    map k | k in data && prefix <= k :: data[k]
  }

  lemma MatchingNext<V>(m: map<string, V>, k: string, v: V, prefix: string)
    ensures Matching(m[k := v], prefix) == if prefix <= k then Matching(m, prefix)[k := v] else Matching(m, prefix) - {k}
  {
  }

  lemma MatchingAll<V>(m: map<string, V>)
    ensures Matching(m, "") == m
  {
  }

  class MemStore {
    var data: map<string, Bytes>

    constructor ()
      ensures data == map[]
    {
      data := map[];
    }

    method Get(key: string) returns (r: Answer)
      ensures r == Lookup(data, key)
    {
      if key !in data {
        return NotFound;
      }
      return Found(data[key]);
    }

    method Put(key: string, value: Bytes)
      modifies this
      ensures data == old(data)[key := value]
    {
      data := data[key := value];
    }

    method Delete(key: string)
      modifies this
      ensures data == old(data) - {key}
    {
      data := data - {key};
    }

    method List(prefix: string) returns (out: map<string, Bytes>)
      ensures out == Matching(data, prefix)
    {
      out := map[];
      var all := ListKeys(data.Keys);
      for i := 0 to |all|
        invariant out == Matching(Visited(data, all, i), prefix)
      {
        VisitedNext(data, all, i);
        MatchingNext(Visited(data, all, i), all[i], data[all[i]], prefix);
        if prefix <= all[i] {
          out := out[all[i] := data[all[i]]];
        }
      }
      VisitedAll(data, all);
    }
  }

  // ---------------------------------------------------------------- values at rest

  /** A stored value: plaintext, or sealed by an ideal authenticated cipher under one key. */
  datatype Stored = Plain(text: Bytes) | Sealed(key: Bytes, nonce: nat, text: Bytes)

  /** Opening succeeds under the sealing key and under no other; plaintext is no valid ciphertext. */
  function Open(key: Bytes, v: Stored): Option<Bytes>
  {
    if |key| == KEY_SIZE && v.Sealed? && v.key == key then Some(v.text) else None
  }

  /** The result of `decrypt`. With encryption off a sealed value comes back as ciphertext. */
  datatype Reading = Text(value: Bytes) | Ciphertext | Failed

  function Decrypt(key: Bytes, prev: Bytes, v: Stored): Reading
  {
    if key == [] then (if v.Plain? then Text(v.text) else Ciphertext)
    else
      var r := Open(key, v);
      if r.Some? then Text(r.value)
      else if prev != [] && Open(prev, v).Some? then Text(Open(prev, v).value)
      else Failed
  }

  function Encrypt(key: Bytes, nonce: nat, text: Bytes): Stored
  {
    if key == [] then Plain(text) else Sealed(key, nonce, text)
  }

  /** `v` is an encryption of `text` under `key`, with some nonce. */
  ghost predicate Encrypts(key: Bytes, text: Bytes, v: Stored)
  {
    exists nonce: nat :: v == Encrypt(key, nonce, text)
  }

  /** What is written is read back, with encryption on or off, now and until the key after next; without encryption it is
      stored as it is. */
  lemma WrittenIsRead(key: Bytes, prev: Bytes, nonce: nat, text: Bytes, newKey: Bytes)
    requires |key| == 0 || |key| == 32
    requires |newKey| == 32
    ensures Decrypt(key, prev, Encrypt(key, nonce, text)) == Text(text)
    ensures key != [] ==> Decrypt(newKey, key, Encrypt(key, nonce, text)) == Text(text)
    ensures key == [] ==> Encrypt(key, nonce, text) == Plain(text)
    ensures key != [] ==> Encrypt(key, nonce, text).Sealed? && Decrypt([], prev, Encrypt(key, nonce, text)) == Ciphertext
  {
  }

  lemma EncryptsIntro(key: Bytes, nonce: nat, text: Bytes)
    ensures Encrypts(key, text, Encrypt(key, nonce, text))
  {
  }

  // ---------------------------------------------------------------- the replicated map

  datatype Command = PutCommand(key: string, value: Stored) | DeleteCommand(key: string) | UnknownCommand

  type Data = map<string, Stored>

  function ApplyCommand(data: Data, c: Command): Data
  {
    match c
    case PutCommand(key, value) => data[key := value]
    case DeleteCommand(key) => data - {key}
    case UnknownCommand => data
  }

  function Replay(data: Data, log: seq<Command>): Data
  {
    if log == [] then data else ApplyCommand(Replay(data, log[..|log| - 1]), log[|log| - 1])
  }

  lemma {:induction false} ReplayConcat(data: Data, a: seq<Command>, b: seq<Command>)
    ensures Replay(data, a + b) == Replay(Replay(data, a), b)
  {
    if b == [] {
      assert a + b == a;
    } else {
      var n := |b| - 1;
      assert (a + b)[..|a + b| - 1] == a + b[..n];
      ReplayConcat(data, a, b[..n]);
    }
  }

  class Fsm {
    var data: Data

    constructor ()
      ensures data == map[]
    {
      data := map[];
    }

    method Apply(c: Command)
      modifies this
      ensures data == ApplyCommand(old(data), c)
    {
      match c {
        case PutCommand(key, value) => data := data[key := value];
        case DeleteCommand(key) => data := data - {key};
        case UnknownCommand =>
      }
    }

    method Snapshot() returns (clone: Data)
      ensures clone == data
    {
      clone := data;
    }

    method Restore(snapshot: Data)
      modifies this
      ensures data == snapshot
    {
      data := snapshot;
    }

    /** A replica that restores a snapshot and applies the remaining log. */
    method CatchUp(snapshot: Data, rest: seq<Command>)
      modifies this
      ensures data == Replay(snapshot, rest)
    {
      Restore(snapshot);
      for i := 0 to |rest|
        invariant data == Replay(snapshot, rest[..i])
      {
        assert rest[..i + 1][..i] == rest[..i];
        Apply(rest[i]);
      }
      assert rest[..|rest|] == rest;
    }
  }

  /** Restoring a snapshot taken after any log prefix and applying the rest gives the map of the whole log. */
  lemma SnapshotResumes(log: seq<Command>, i: nat)
    requires i <= |log|
    ensures Replay(Replay(map[], log[..i]), log[i..]) == Replay(map[], log)
  {
    ReplayConcat(map[], log[..i], log[i..]);
    assert log[..i] + log[i..] == log;
  }

  // ---------------------------------------------------------------- RaftStore

  /** The leader's in-memory state: two keys and the replicated map. An absent key is the empty string. */
  datatype Vault = Vault(encKey: Bytes, prevKey: Bytes, data: Data)

  predicate KeySizes(v: Vault)
  {
    (|v.encKey| == 0 || |v.encKey| == KEY_SIZE) && (|v.prevKey| == 0 || |v.prevKey| == KEY_SIZE)
  }

  function Read(v: Vault, key: string): Reading
    requires key in v.data
  {
    Decrypt(v.encKey, v.prevKey, v.data[key])
  }

  /** Every stored value decrypts. */
  ghost predicate Readable(v: Vault)
  {
    forall k :: k in v.data ==> Read(v, k).Text?
  }

  /** The decrypted contents. */
  ghost function View(v: Vault): map<string, Bytes>
  {
    map k | k in v.data && Read(v, k).Text? :: Read(v, k).value
  }

  lemma ViewNext(v: Vault, k: string, s: Stored)
    requires k !in v.data
    ensures var w := v.(data := v.data[k := s]);
      View(w) == if Read(w, k).Text? then View(v)[k := Read(w, k).value] else View(v)
  {
    var w := v.(data := v.data[k := s]);
    assert forall j :: j in v.data ==> Read(w, j) == Read(v, j);
  }

  /** Encryption is on and every value is sealed under the current or the previous key. */
  ghost predicate SealedUnderKeys(v: Vault)
  {
    && |v.encKey| == KEY_SIZE && KeySizes(v)
    && (forall k :: k in v.data ==> v.data[k].Sealed? && (v.data[k].key == v.encKey || (v.prevKey != [] && v.data[k].key == v.prevKey)))
  }

  lemma SealedIsReadable(v: Vault)
    requires SealedUnderKeys(v)
    ensures Readable(v)
    ensures forall k :: k in v.data ==> View(v)[k] == v.data[k].text
  {
  }

  class RaftStore {
    var encKey: Bytes
    var prevKey: Bytes
    var data: Data
    var log: seq<Command>

    constructor (key: Bytes)
      requires |key| == 0 || |key| == KEY_SIZE
      ensures Valid() && Current() == Vault(key, [], map[])
    {
      encKey, prevKey, data, log := key, [], map[], [];
    }

    ghost predicate Valid()
      reads this
    {
      KeySizes(Current()) && data == Replay(map[], log)
    }

    ghost function Current(): Vault
      reads this
    {
      Vault(encKey, prevKey, data)
    }

    /** Commits a command to the log, unless this process is not the leader. */
    method Apply(c: Command, leader: bool) returns (ok: bool)
      requires Valid()
      modifies this`data, this`log
      ensures Valid() && ok == leader
      ensures data == if ok then ApplyCommand(old(data), c) else old(data)
      ensures log == if ok then old(log) + [c] else old(log)
    {
      if !leader {
        return false;
      }
      assert (log + [c])[..|log|] == log;
      log := log + [c];
      data := ApplyCommand(data, c);
      return true;
    }

    method Get(key: string) returns (r: Reading, found: bool)
      requires Valid()
      ensures found <==> key in data
      ensures found ==> r == Read(Current(), key)
    {
      if key !in data {
        return Failed, false;
      }
      return Decrypt(encKey, prevKey, data[key]), true;
    }

    method Put(key: string, value: Bytes, leader: bool) returns (ok: bool)
      requires Valid()
      modifies this`data, this`log
      ensures Valid() && ok == leader
      ensures !ok ==> data == old(data)
      ensures ok ==> key in data && data == old(data)[key := data[key]] && Encrypts(encKey, value, data[key])
    {
      var nonce: nat := *;
      var stored := Encrypt(encKey, nonce, value);
      EncryptsIntro(encKey, nonce, value);
      ok := Apply(PutCommand(key, stored), leader);
    }

    method Delete(key: string, leader: bool) returns (ok: bool)
      requires Valid()
      modifies this`data, this`log
      ensures Valid() && ok == leader
      ensures data == if ok then old(data) - {key} else old(data)
    {
      ok := Apply(DeleteCommand(key), leader);
    }

    /** Fails as a whole when one matching value does not decrypt. */
    method List(prefix: string) returns (ok: bool, out: map<string, Bytes>)
      requires Valid()
      ensures ok <==> Readable(Vault(encKey, prevKey, Matching(data, prefix)))
      ensures ok ==> out == View(Vault(encKey, prevKey, Matching(data, prefix)))
    {
      var stored := Matching(data, prefix);
      ghost var v := Vault(encKey, prevKey, stored);
      out := map[];
      var all := ListKeys(stored.Keys);
      for i := 0 to |all|
        invariant forall j :: 0 <= j < i ==> Read(v, all[j]).Text?
        invariant out == View(v.(data := Visited(stored, all, i)))
      {
        VisitedNext(stored, all, i);
        ViewNext(v.(data := Visited(stored, all, i)), all[i], stored[all[i]]);
        var plain := Decrypt(encKey, prevKey, stored[all[i]]);
        assert Read(v, all[i]) == plain;
        if !plain.Text? {
          return false, map[];
        }
        out := out[all[i] := plain.value];
      }
      VisitedAll(stored, all);
      ok := true;
    }

    /** The old current key stays available for reading; a key of the wrong size is refused. */
    method RotateEncryptionKey(newKey: Bytes) returns (ok: bool)
      requires Valid()
      modifies this`encKey, this`prevKey
      ensures Valid()
      ensures ok <==> |newKey| == 32
      ensures Current() == if ok then Rotated(old(Current()), newKey) else old(Current())
    {
      if |newKey| != KEY_SIZE {
        return false;
      }
      prevKey := encKey;
      encKey := newKey;
      return true;
    }

    /** The loop of `ReencryptAll`: one write per listed value. Leadership may be lost after any number of writes. */
    method RewriteListed(all: map<string, Bytes>, leaderFor: nat) returns (ok: bool, count: nat)
      requires Valid() && Readable(Current()) && all == View(Current())
      modifies this`data, this`log
      ensures Valid()
      ensures ok <==> |old(data)| <= leaderFor
      ensures ok ==> count == |old(data)| && forall k :: k in old(data) ==> k in data && Rewritten(old(Current()), k, data[k])
      ensures PartlyReencrypted(old(Current()), Current())
    {
      ghost var v := Current();
      ghost var size := |data|;
      var rest := all.Keys;
      assert rest == v.data.Keys;
      count := 0;
      while rest != {}
        invariant rest <= v.data.Keys
        invariant count + |rest| == size && count <= leaderFor
        invariant Valid() && PartlyReencrypted(v, Current())
        invariant RewrittenOutside(v, Current(), rest)
        decreases |rest|
      {
        var key :| key in rest;
        ghost var before := Current();
        var put := Put(key, all[key], count < leaderFor);
        if !put {
          return false, count;
        }
        assert Rewritten(v, key, data[key]);
        PartlyNext(v, before, rest, key, data[key]);
        assert Current() == before.(data := before.data[key := data[key]]);
        count := count + 1;
        rest := rest - {key};
      }
      ok := true;
    }

    /** Rewrites every value under the current key, then forgets the previous one. */
    method ReencryptAll(leaderFor: nat) returns (ok: bool, count: nat)
      requires Valid()
      modifies this`data, this`log, this`prevKey
      ensures Valid()
      ensures ok <==> Readable(old(Current())) && |old(data)| <= leaderFor
      ensures ok ==> Reencrypted(old(Current()), Current()) && count == |old(data)|
      ensures !ok ==> PartlyReencrypted(old(Current()), Current())
    {
      MatchingAll(data);
      var listed, all := List("");
      if !listed {
        return false, 0;
      }
      ok, count := RewriteListed(all, leaderFor);
      if !ok {
        return;
      }
      prevKey := [];
    }

    /** key_rotation.go: a rotation followed by a re-encryption of everything. */
    method Rotate(newKey: Bytes, leaderFor: nat) returns (ok: bool)
      requires Valid()
      modifies this
      ensures Valid()
      ensures |newKey| != KEY_SIZE ==> !ok && Current() == old(Current())
      ensures |newKey| == KEY_SIZE ==>
        && (ok <==> Readable(Rotated(old(Current()), newKey)) && |old(data)| <= leaderFor)
        && (ok ==> Reencrypted(Rotated(old(Current()), newKey), Current()))
        && (!ok ==> PartlyReencrypted(Rotated(old(Current()), newKey), Current()))
    {
      var rotated := RotateEncryptionKey(newKey);
      if !rotated {
        return false;
      }
      var count;
      ok, count := ReencryptAll(leaderFor);
    }
  }

  function Rotated(v: Vault, newKey: Bytes): Vault
  {
    Vault(newKey, v.encKey, v.data)
  }

  /** `stored` is what `key` held in `v`, sealed afresh under the current key. */
  ghost predicate Rewritten(v: Vault, key: string, stored: Stored)
  {
    key in v.data && Read(v, key).Text? && Encrypts(v.encKey, Read(v, key).value, stored)
  }

  ghost predicate PartlyReencrypted(v: Vault, v': Vault)
  {
    && v'.encKey == v.encKey && v'.prevKey == v.prevKey && v'.data.Keys == v.data.Keys
    && (forall k :: k in v.data ==> v'.data[k] == v.data[k] || Rewritten(v, k, v'.data[k]))
  }

  /** Every value of `v` outside `rest` has been rewritten in `w`. */
  ghost predicate RewrittenOutside(v: Vault, w: Vault, rest: set<string>)
  {
    forall k :: k in v.data && k !in rest ==> k in w.data && Rewritten(v, k, w.data[k])
  }

  lemma PartlyNext(v: Vault, w: Vault, rest: set<string>, key: string, stored: Stored)
    requires PartlyReencrypted(v, w) && RewrittenOutside(v, w, rest) && Rewritten(v, key, stored)
    ensures PartlyReencrypted(v, w.(data := w.data[key := stored]))
    ensures RewrittenOutside(v, w.(data := w.data[key := stored]), rest - {key})
  {
  }

  ghost predicate Reencrypted(v: Vault, v': Vault)
  {
    && v'.encKey == v.encKey && v'.prevKey == [] && v'.data.Keys == v.data.Keys
    && (forall k :: k in v.data ==> Rewritten(v, k, v'.data[k]))
  }
}
