/** The encrypted store looks like the plain one, across key rotations and interrupted re-encryptions. */
module Rotation {
  import opened Names
  import opened Store

  // ---------------------------------------------------------------- re-encryption keeps the contents

  ghost predicate AllUnder(v: Vault, key: Bytes)
  {
    forall k :: k in v.data ==> v.data[k].Sealed? && v.data[k].key == key
  }

  lemma RewrittenIsSealed(v: Vault, k: string, s: Stored)
    requires SealedUnderKeys(v) && Rewritten(v, k, s)
    ensures s.Sealed? && s.key == v.encKey && s.text == v.data[k].text
  {
  }

  lemma SameTextsSameView(v: Vault, w: Vault)
    requires SealedUnderKeys(v) && SealedUnderKeys(w)
    requires v.data.Keys == w.data.Keys && forall k :: k in v.data ==> w.data[k].text == v.data[k].text
    ensures View(w) == View(v)
  {
    SealedIsReadable(v);
    SealedIsReadable(w);
  }

  /** A re-encryption that stops at any point leaves every plaintext readable and unchanged. */
  lemma InterruptedIsHarmless(v: Vault, w: Vault)
    requires SealedUnderKeys(v) && PartlyReencrypted(v, w)
    ensures SealedUnderKeys(w) && Readable(w) && View(w) == View(v)
  {
    forall k | k in v.data
      ensures w.data[k].Sealed? && w.data[k].text == v.data[k].text
      ensures w.data[k].key == v.data[k].key || w.data[k].key == v.encKey
    {
      if w.data[k] != v.data[k] {
        RewrittenIsSealed(v, k, w.data[k]);
      }
    }
    SealedIsReadable(w);
    SameTextsSameView(v, w);
  }

  /** A completed one leaves everything under the current key alone. */
  lemma CompletedIsClean(v: Vault, w: Vault)
    requires SealedUnderKeys(v) && Reencrypted(v, w)
    ensures SealedUnderKeys(w) && AllUnder(w, w.encKey) && w.prevKey == [] && View(w) == View(v)
  {
    forall k | k in v.data ensures w.data[k].Sealed? && w.data[k].text == v.data[k].text && w.data[k].key == v.encKey {
      RewrittenIsSealed(v, k, w.data[k]);
    }
    SameTextsSameView(v, w);
  }

  /** Resumption: whatever part of a re-encryption was done, the store is readable, and a later complete one leaves
      everything under the current key with the original contents. */
  lemma ResumedIsClean(v: Vault, w: Vault, x: Vault)
    requires SealedUnderKeys(v) && PartlyReencrypted(v, w) && Reencrypted(w, x)
    ensures Readable(w) && AllUnder(x, v.encKey) && x.prevKey == [] && View(x) == View(v)
  {
    InterruptedIsHarmless(v, w);
    CompletedIsClean(w, x);
  }

  // ---------------------------------------------------------------- when a rotation is safe

  /** Right after a rotation everything is readable if and only if every stored value is sealed under the key that was
      current before it (or already under the new one). A value left under the key before that, or written while
      encryption was off, is lost. */
  lemma RotationReadable(v: Vault, newKey: Bytes)
    requires |newKey| == KEY_SIZE && KeySizes(v)
    ensures Readable(Rotated(v, newKey)) <==>
      forall k :: k in v.data ==> v.data[k].Sealed? && (v.data[k].key == newKey || (v.encKey != [] && v.data[k].key == v.encKey))
  {
    forall k | k in v.data
      ensures Read(Rotated(v, newKey), k).Text? <==>
        v.data[k].Sealed? && (v.data[k].key == newKey || (v.encKey != [] && v.data[k].key == v.encKey))
    {
    }
  }

  /** A rotation from a clean state keeps the view, and the re-encryption that follows completes it. */
  lemma RotationKeepsView(v: Vault, newKey: Bytes)
    requires |newKey| == KEY_SIZE
    requires SealedUnderKeys(v) && AllUnder(v, v.encKey)
    ensures SealedUnderKeys(Rotated(v, newKey)) && View(Rotated(v, newKey)) == View(v)
  {
    SameTextsSameView(v, Rotated(v, newKey));
  }

  /** The first rotation of a store that was running without encryption loses every value, and no re-encryption brings
      one back, because its listing fails. */
  lemma RotationWithoutEncryption(v: Vault, newKey: Bytes)
    requires |newKey| == KEY_SIZE && v.encKey == [] && v.prevKey == []
    requires v.data.Keys != {} && forall k :: k in v.data ==> v.data[k].Plain?
    ensures Readable(v)
    ensures View(Rotated(v, newKey)) == map[]
    ensures !Readable(Rotated(v, newKey))
  {
    forall k | k in v.data ensures Read(Rotated(v, newKey), k) == Failed {
    }
    var k :| k in v.data;
    assert !Read(Rotated(v, newKey), k).Text?;
  }

  /** A second rotation after an interrupted re-encryption: a value the first pass had not reached is lost. */
  lemma SecondRotationLoses(v: Vault, first: Bytes, w: Vault, second: Bytes, key: string)
    requires |first| == |second| == KEY_SIZE && PartlyReencrypted(Rotated(v, first), w)
    requires key in w.data && w.data[key].Sealed? && w.data[key].key == v.encKey && v.encKey !in {first, second}
    ensures Read(Rotated(w, second), key) == Failed
  {
  }

  // ---------------------------------------------------------------- runs

  /** The encrypted store, the part of the current pass's listing not yet rewritten, and a plain store fed the same operations. */
  datatype Machine = Machine(vault: Vault, pending: Option<map<string, Bytes>>, mem: map<string, Bytes>)

  datatype Event =
    | PutKey(key: string, value: Bytes)
    | DeleteKey(key: string)
    | RotateKey(newKey: Bytes)
    | BeginPass
    | RewriteOne(key: string)
    | FinishPass
    | AbortPass

  ghost predicate Writes(data: Data, key: string, encKey: Bytes, text: Bytes, after: Data)
  {
    exists s :: Encrypts(encKey, text, s) && after == data[key := s]
  }

  /** One step. Clients write and delete any key at any time; the rotator runs rotations and passes one after another. */
  ghost predicate Moves(m: Machine, e: Event, m': Machine)
  {
    match e
    case PutKey(key, value) =>
      && Writes(m.vault.data, key, m.vault.encKey, value, m'.vault.data)
      && m' == Machine(m.vault.(data := m'.vault.data), m.pending, m.mem[key := value])
    case DeleteKey(key) =>
      m' == Machine(m.vault.(data := m.vault.data - {key}), m.pending, m.mem - {key})
    case RotateKey(newKey) =>
      && |newKey| == KEY_SIZE && m.pending.None?
      && m' == m.(vault := Rotated(m.vault, newKey))
    case BeginPass =>
      && m.pending.None? && Readable(m.vault)
      && m' == m.(pending := Some(View(m.vault)))
    case RewriteOne(key) =>
      && m.pending.Some? && key in m.pending.value
      && Writes(m.vault.data, key, m.vault.encKey, m.pending.value[key], m'.vault.data)
      && m' == Machine(m.vault.(data := m'.vault.data), Some(m.pending.value - {key}), m.mem)
    case FinishPass =>
      && m.pending == Some(map[])
      && m' == m.(vault := m.vault.(prevKey := []), pending := None)
    case AbortPass =>
      && m.pending.Some?
      && m' == m.(pending := None)
  }

  /** A rotation finds nothing left under an older key; a rewrite finds the key as it was listed. */
  ghost predicate Harmless(m: Machine, e: Event)
  {
    match e
    case RotateKey(newKey) => forall k :: k in m.vault.data ==> m.vault.data[k].Sealed? && m.vault.data[k].key in {m.vault.encKey, newKey}
    case RewriteOne(key) => m.pending.Some? && key in m.pending.value && key in m.mem && m.mem[key] == m.pending.value[key]
    case _ => true
  }

  ghost predicate SameTexts(v: Vault, mem: map<string, Bytes>)
  {
    v.data.Keys == mem.Keys && forall k :: k in mem ==> v.data[k].text == mem[k]
  }

  /** What a running pass will not rewrite is under the current key. */
  ghost predicate RestUnderCurrent(m: Machine)
  {
    m.pending.Some? ==>
      forall k :: k in m.vault.data && k !in m.pending.value ==> m.vault.data[k].Sealed? && m.vault.data[k].key == m.vault.encKey
  }

  /** Everything readable, with the plain store's contents. */
  ghost predicate InStep(m: Machine)
  {
    SealedUnderKeys(m.vault) && SameTexts(m.vault, m.mem) && RestUnderCurrent(m)
  }

  lemma InStepView(m: Machine)
    requires InStep(m)
    ensures Readable(m.vault) && View(m.vault) == m.mem
  {
    SealedIsReadable(m.vault);
  }

  lemma PutInStep(m: Machine, key: string, value: Bytes, m': Machine)
    requires InStep(m) && Moves(m, PutKey(key, value), m')
    ensures InStep(m')
  {
    var s :| Encrypts(m.vault.encKey, value, s) && m'.vault.data == m.vault.data[key := s];
    assert s.Sealed? && s.key == m.vault.encKey && s.text == value;
  }

  lemma RotateInStep(m: Machine, newKey: Bytes, m': Machine)
    requires InStep(m) && Moves(m, RotateKey(newKey), m')
    ensures InStep(m') <==> Harmless(m, RotateKey(newKey))
  {
  }

  /** Rewriting a listed value keeps the store in step if and only if the key still exists with the listed value: a later
      write is silently undone, a deleted key comes back. */
  lemma RewriteInStep(m: Machine, key: string, m': Machine)
    requires InStep(m) && Moves(m, RewriteOne(key), m')
    ensures InStep(m') <==> key in m.mem && m.mem[key] == m.pending.value[key]
    ensures key in m'.vault.data && m'.vault.data[key].text == m.pending.value[key]
  {
    var text := m.pending.value[key];
    var s :| Encrypts(m.vault.encKey, text, s) && m'.vault.data == m.vault.data[key := s];
    assert s.Sealed? && s.key == m.vault.encKey && s.text == text;
    if key in m.mem && m.mem[key] == text {
      assert m'.vault.data.Keys == m.vault.data.Keys;
    }
    if SameTexts(m'.vault, m'.mem) {
      assert key in m'.vault.data.Keys;
    }
  }

  /** From a state in step, a step leads to a state in step if and only if it is harmless. Client operations always are. */
  lemma StepExact(m: Machine, e: Event, m': Machine)
    requires InStep(m) && Moves(m, e, m')
    ensures InStep(m') <==> Harmless(m, e)
  {
    InStepView(m);
    match e
    case PutKey(key, value) => PutInStep(m, key, value, m');
    case DeleteKey(key) =>
    case RotateKey(newKey) => RotateInStep(m, newKey, m');
    case BeginPass =>
    case RewriteOne(key) => RewriteInStep(m, key, m');
    case FinishPass =>
    case AbortPass =>
  }

  ghost predicate Next(m: Machine, e: Event, m': Machine)
  {
    Moves(m, e, m') && Harmless(m, e)
  }

  ghost predicate Run(ms: seq<Machine>, es: seq<Event>)
  {
    && |ms| == |es| + 1
    && (forall i :: 0 <= i < |es| ==> Next(ms[i], es[i], ms[i + 1]))
  }

  lemma {:induction false} RunInStep(ms: seq<Machine>, es: seq<Event>, j: nat)
    requires Run(ms, es) && InStep(ms[0])
    requires j < |ms|
    ensures InStep(ms[j])
  {
    if j > 0 {
      RunInStep(ms, es, j - 1);
      StepExact(ms[j - 1], es[j - 1], ms[j]);
    }
  }

  /** The encrypted store, opened empty with a key. */
  function Fresh(key: Bytes): Machine
  {
    Machine(Vault(key, [], map[]), None, map[])
  }

  /** Store refinement: in every state of every run, every value is sealed under the current or previous key, every `Get`
      and every `List` answers what the plain store answers. */
  lemma StoreRefinement(key: Bytes, ms: seq<Machine>, es: seq<Event>, j: nat)
    requires |key| == KEY_SIZE && Run(ms, es) && ms[0] == Fresh(key)
    requires j < |ms|
    ensures SealedUnderKeys(ms[j].vault)
    ensures forall k :: (k in ms[j].vault.data <==> Lookup(ms[j].mem, k).Found?)
    ensures forall k :: k in ms[j].vault.data ==> Read(ms[j].vault, k) == Text(Lookup(ms[j].mem, k).value)
    ensures forall prefix :: ListsAlike(ms[j], prefix)
  {
    RunInStep(ms, es, j);
    InStepView(ms[j]);
    forall prefix ensures ListsAlike(ms[j], prefix) {
      ListAgrees(ms[j], prefix);
    }
  }

  /** Listing a prefix succeeds and returns what the plain store returns. */
  ghost predicate ListsAlike(m: Machine, prefix: string)
  {
    var part := m.vault.(data := Matching(m.vault.data, prefix));
    Readable(part) && View(part) == Matching(m.mem, prefix)
  }

  lemma ListAgrees(m: Machine, prefix: string)
    requires InStep(m)
    ensures ListsAlike(m, prefix)
  {
    var part := m.vault.(data := Matching(m.vault.data, prefix));
    assert SealedUnderKeys(part);
    SealedIsReadable(part);
  }

  // ---------------------------------------------------------------- the two harmful steps can be reached

  ghost predicate Trace(ms: seq<Machine>, es: seq<Event>)
  {
    && |ms| == |es| + 1
    && (forall i :: 0 <= i < |es| ==> Moves(ms[i], es[i], ms[i + 1]))
  }

  /** The machine after a client's put that drew `nonce`. */
  function AfterPut(m: Machine, key: string, value: Bytes, nonce: nat): Machine
  {
    Machine(m.vault.(data := m.vault.data[key := Encrypt(m.vault.encKey, nonce, value)]), m.pending, m.mem[key := value])
  }

  lemma AfterPutMoves(m: Machine, key: string, value: Bytes, nonce: nat)
    ensures Moves(m, PutKey(key, value), AfterPut(m, key, value, nonce))
  {
    EncryptsIntro(m.vault.encKey, nonce, value);
    assert Writes(m.vault.data, key, m.vault.encKey, value, AfterPut(m, key, value, nonce).vault.data);
  }

  /** Put, list for a pass, put again, rewrite: the second value is gone. */
  lemma StaleRewrite(encKey: Bytes, key: string, older: Bytes, newer: Bytes) returns (ms: seq<Machine>, es: seq<Event>)
    requires |encKey| == KEY_SIZE && older != newer
    ensures Trace(ms, es) && ms[0] == Fresh(encKey) && |es| == 4
    ensures key in ms[4].mem && ms[4].mem[key] == newer
    ensures key in ms[4].vault.data && Read(ms[4].vault, key) == Text(older)
  {
    var m0 := Fresh(encKey);
    var m1 := AfterPut(m0, key, older, 0);
    AfterPutMoves(m0, key, older, 0);
    assert m1.vault.data[key] == Sealed(encKey, 0, older) && InStep(m1);
    InStepView(m1);
    var m2 := m1.(pending := Some(m1.mem));
    assert Moves(m1, BeginPass, m2);
    var m3 := AfterPut(m2, key, newer, 1);
    AfterPutMoves(m2, key, newer, 1);
    var sealed := Encrypt(encKey, 2, older);
    var m4 := Machine(m3.vault.(data := m3.vault.data[key := sealed]), Some(m3.pending.value - {key}), m3.mem);
    EncryptsIntro(encKey, 2, older);
    assert Writes(m3.vault.data, key, encKey, older, m4.vault.data);
    assert Moves(m3, RewriteOne(key), m4);
    ms := [m0, m1, m2, m3, m4];
    es := [PutKey(key, older), BeginPass, PutKey(key, newer), RewriteOne(key)];
  }

  /** Put, rotate, begin a pass, lose leadership, rotate again: the value cannot be read any more. */
  lemma InterruptedThenRotated(encKey: Bytes, first: Bytes, second: Bytes, key: string, value: Bytes)
    returns (ms: seq<Machine>, es: seq<Event>)
    requires |encKey| == |first| == |second| == KEY_SIZE && encKey !in {first, second}
    ensures Trace(ms, es) && ms[0] == Fresh(encKey) && |es| == 5
    ensures key in ms[5].mem && key in ms[5].vault.data && Read(ms[5].vault, key) == Failed
  {
    var m0 := Fresh(encKey);
    var m1 := AfterPut(m0, key, value, 0);
    AfterPutMoves(m0, key, value, 0);
    assert m1.vault.data[key] == Sealed(encKey, 0, value) && InStep(m1);
    var m2 := m1.(vault := Rotated(m1.vault, first));
    assert Harmless(m1, RotateKey(first));
    StepExact(m1, RotateKey(first), m2);
    InStepView(m2);
    var m3 := m2.(pending := Some(m2.mem));
    var m4 := m3.(pending := None);
    var m5 := m4.(vault := Rotated(m4.vault, second));
    assert PartlyReencrypted(Rotated(m1.vault, first), m4.vault);
    SecondRotationLoses(m1.vault, first, m4.vault, second, key);
    ms := [m0, m1, m2, m3, m4, m5];
    es := [PutKey(key, value), RotateKey(first), BeginPass, AbortPass, RotateKey(second)];
  }

  // ---------------------------------------------------------------- the store's methods are runs

  lemma RunFirst(m: Machine, e: Event, ms: seq<Machine>, es: seq<Event>)
    requires Run(ms, es) && Next(m, e, ms[0])
    ensures Run([m] + ms, [e] + es)
  {
  }

  lemma RunLast(ms: seq<Machine>, es: seq<Event>, e: Event, m: Machine)
    requires Run(ms, es) && Next(ms[|es|], e, m)
    ensures Run(ms + [m], es + [e])
  {
  }

  /** `w` differs from the machine's data exactly by rewrites of `todo`, a part of the running pass's listing. */
  ghost predicate RewritesTo(m: Machine, todo: set<string>, w: Data)
  {
    && m.pending.Some? && todo <= m.pending.value.Keys && w.Keys == m.vault.data.Keys
    && (forall k :: k in todo ==> k in w && k in m.mem && m.mem[k] == m.pending.value[k] && Encrypts(m.vault.encKey, m.mem[k], w[k]))
    && (forall k :: k in w && k !in todo ==> w[k] == m.vault.data[k])
  }

  lemma RewriteOneOf(m: Machine, todo: set<string>, w: Data, key: string) returns (m': Machine)
    requires RewritesTo(m, todo, w) && key in todo
    ensures Next(m, RewriteOne(key), m') && RewritesTo(m', todo - {key}, w)
    ensures m' == Machine(m.vault.(data := m'.vault.data), Some(m.pending.value - {key}), m.mem)
  {
    m' := Machine(m.vault.(data := m.vault.data[key := w[key]]), Some(m.pending.value - {key}), m.mem);
    assert Writes(m.vault.data, key, m.vault.encKey, m.pending.value[key], m'.vault.data);
  }

  lemma {:induction false} RewritesAreRun(m: Machine, todo: set<string>, w: Data) returns (ms: seq<Machine>, es: seq<Event>)
    requires RewritesTo(m, todo, w)
    ensures Run(ms, es) && ms[0] == m
    ensures ms[|es|] == Machine(m.vault.(data := w), Some(m.pending.value - todo), m.mem)
    decreases |todo|
  {
    if todo == {} {
      assert w == m.vault.data && m.pending.value - todo == m.pending.value;
      ms, es := [m], [];
    } else {
      var key :| key in todo;
      var next := RewriteOneOf(m, todo, w, key);
      var rest, events := RewritesAreRun(next, todo - {key}, w);
      assert m.pending.value - {key} - (todo - {key}) == m.pending.value - todo;
      RunFirst(m, RewriteOne(key), rest, events);
      ms, es := [m] + rest, [RewriteOne(key)] + events;
    }
  }

  /** Beginning a pass and doing a part of its rewrites. */
  lemma PassBegins(m: Machine, todo: set<string>, w: Data) returns (ms: seq<Machine>, es: seq<Event>)
    requires InStep(m) && m.pending.None?
    requires todo <= m.vault.data.Keys == w.Keys
    requires forall k :: k in w ==> if k in todo then Rewritten(m.vault, k, w[k]) else w[k] == m.vault.data[k]
    ensures Run(ms, es) && ms[0] == m
    ensures ms[|es|] == Machine(m.vault.(data := w), Some(m.mem - todo), m.mem)
  {
    InStepView(m);
    var begun := m.(pending := Some(m.mem));
    forall k | k in todo ensures Encrypts(m.vault.encKey, m.mem[k], w[k]) {
      assert Rewritten(m.vault, k, w[k]) && View(m.vault)[k] == m.mem[k];
    }
    ms, es := RewritesAreRun(begun, todo, w);
    RunFirst(m, BeginPass, ms, es);
    ms, es := [m] + ms, [BeginPass] + es;
  }

  /** An interrupted re-encryption is a run of the machine. */
  lemma InterruptedIsRun(m: Machine, w: Vault) returns (ms: seq<Machine>, es: seq<Event>)
    requires InStep(m) && m.pending.None? && PartlyReencrypted(m.vault, w)
    ensures Run(ms, es) && ms[0] == m && ms[|es|] == m.(vault := w)
  {
    var todo := set k | k in w.data && w.data[k] != m.vault.data[k];
    ms, es := PassBegins(m, todo, w.data);
    var last := m.(vault := w);
    assert m.vault.(data := w.data) == w;
    RunLast(ms, es, AbortPass, last);
    ms, es := ms + [last], es + [AbortPass];
  }

  /** So is a completed one. */
  lemma CompletedIsRun(m: Machine, w: Vault) returns (ms: seq<Machine>, es: seq<Event>)
    requires InStep(m) && m.pending.None? && Reencrypted(m.vault, w)
    ensures Run(ms, es) && ms[0] == m && ms[|es|] == m.(vault := w)
  {
    var todo := m.vault.data.Keys;
    ms, es := PassBegins(m, todo, w.data);
    assert m.mem - todo == map[];
    var last := m.(vault := w);
    RunLast(ms, es, FinishPass, last);
    ms, es := ms + [last], es + [FinishPass];
  }

  datatype Operation = PutOp(key: string, value: Bytes) | DeleteOp(key: string) | RotateOp(newKey: Bytes) | ReencryptOp

  /** What the plain store does for an operation that succeeded. */
  function OnPlain(op: Operation, mem: map<string, Bytes>): map<string, Bytes>
  {
    match op
    case PutOp(key, value) => mem[key := value]
    case DeleteOp(key) => mem - {key}
    case RotateOp(_) => mem
    case ReencryptOp => mem
  }

  /** One operation on a store in step, for a process that stays leader for `leaderFor` writes: it is a trace of the machine,
      and the store stays in step if and only if it was not a rotation that is harmful. */
  method Serve(store: RaftStore, op: Operation, leaderFor: nat, ghost mem: map<string, Bytes>)
    returns (ok: bool, ghost ms: seq<Machine>, ghost es: seq<Event>)
    requires store.Valid() && InStep(Machine(store.Current(), None, mem))
    modifies store
    ensures store.Valid() && Trace(ms, es)
    ensures ms[0] == Machine(old(store.Current()), None, mem)
    ensures ms[|es|] == Machine(store.Current(), None, if ok then OnPlain(op, mem) else mem)
    ensures InStep(ms[|es|]) <==> !(op.RotateOp? && ok && !Harmless(ms[0], RotateKey(op.newKey)))
    ensures op.PutOp? || op.DeleteOp? ==> (ok <==> leaderFor > 0)
    ensures op.RotateOp? ==> (ok <==> |op.newKey| == KEY_SIZE)
    ensures op.ReencryptOp? ==> (ok <==> |mem| <= leaderFor)
  {
    ghost var m := Machine(store.Current(), None, mem);
    InStepView(m);
    ms, es := [m], [];
    match op {
      case PutOp(key, value) =>
        ok := store.Put(key, value, leaderFor > 0);
        if ok {
          ms, es := [m, Machine(store.Current(), None, mem[key := value])], [PutKey(key, value)];
          assert Writes(m.vault.data, key, m.vault.encKey, value, store.data);
        }
      case DeleteOp(key) =>
        ok := store.Delete(key, leaderFor > 0);
        if ok {
          ms, es := [m, Machine(store.Current(), None, mem - {key})], [DeleteKey(key)];
        }
      case RotateOp(newKey) =>
        ok := store.RotateEncryptionKey(newKey);
        if ok {
          ms, es := [m, Machine(store.Current(), None, mem)], [RotateKey(newKey)];
          StepExact(m, RotateKey(newKey), ms[1]);
          return;
        }
      case ReencryptOp =>
        var count;
        ok, count := store.ReencryptAll(leaderFor);
        if ok {
          ms, es := CompletedIsRun(m, store.Current());
        } else {
          ms, es := InterruptedIsRun(m, store.Current());
        }
    }
    RunInStep(ms, es, |es|);
  }
}
