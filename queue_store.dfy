/** A dictionary from request key to the list of canned responses still to be
    served, as `mockedResponsesByKey` is used by the mocks: registration
    appends to the key's list (creating it when absent), consumption removes
    from its front. */
module QueueStore {

  import opened Values

  /** The pending entries for `k`; an absent key has none. */
  function Queue<K, V>(m: map<K, seq<V>>, k: K): seq<V> {
    if k in m then m[k] else []
  }

  /** Appends `v` to the list of `k`, creating the list when absent. */
  function Register<K(!new), V>(m: map<K, seq<V>>, k: K, v: V): (m': map<K, seq<V>>)
    ensures m'.Keys == m.Keys + {k}
    ensures Queue(m', k) == Queue(m, k) + [v]
    ensures forall j :: j != k ==> Queue(m', j) == Queue(m, j)
  {
    m[k := Queue(m, k) + [v]]
  }

  /** `byKey[k].shift()`, failing when the key is unknown or its list is
      empty; a failure leaves the dictionary as it was. */
  function Consume<K(!new), V>(m: map<K, seq<V>>, k: K): (r: (Option<V>, map<K, seq<V>>))
    ensures r.0.None? <==> Queue(m, k) == []
    ensures r.0.None? ==> r.1 == m
    ensures r.0.Some? ==> r.0.value == Queue(m, k)[0] && r.1 == m[k := Queue(m, k)[1..]]
    ensures r.1.Keys == m.Keys
    ensures forall j :: j != k ==> Queue(r.1, j) == Queue(m, j)
  {
    if Queue(m, k) == [] then (None, m) else (Some(m[k][0]), m[k := m[k][1..]])
  }

  /** Registers each of `vs` in turn under its key, as a constructor's
      `forEach` over its arguments does. */
  function RegisterAll<K(!new), V>(m: map<K, seq<V>>, vs: seq<V>, keyOf: V -> K): map<K, seq<V>>
    decreases |vs|
  {
    if vs == [] then m else RegisterAll(Register(m, keyOf(vs[0]), vs[0]), vs[1..], keyOf)
  }

  /** The entries of `vs` whose key is `k`, in their order in `vs`. */
  function Matching<K(==), V>(vs: seq<V>, keyOf: V -> K, k: K): (r: seq<V>)
    ensures |r| <= |vs|
  {
    if vs == [] then []
    else (if keyOf(vs[0]) == k then [vs[0]] else []) + Matching(vs[1..], keyOf, k)
  }

  /** Every entry matching `k` is one of `vs` and has key `k`. */
  lemma {:induction false} MatchingSound<K, V>(vs: seq<V>, keyOf: V -> K, k: K)
    ensures forall i :: 0 <= i < |Matching(vs, keyOf, k)| ==>
      Matching(vs, keyOf, k)[i] in vs && keyOf(Matching(vs, keyOf, k)[i]) == k
    decreases |vs|
  {
    if vs != [] {
      MatchingSound(vs[1..], keyOf, k);
      var r := Matching(vs, keyOf, k);
      var rest := Matching(vs[1..], keyOf, k);
      forall i | 0 <= i < |r| ensures r[i] in vs && keyOf(r[i]) == k {
        if keyOf(vs[0]) == k {
          if i > 0 {
            assert r[i] == rest[i - 1];
          }
        } else {
          assert r[i] == rest[i];
        }
      }
    }
  }

  /** The list of each key holds exactly the entries registered under it, in
      registration order, after those it already had; a key is present
      exactly when it was present before or something was registered under it. */
  lemma RegisterAllQueue<K(!new), V>(m: map<K, seq<V>>, vs: seq<V>, keyOf: V -> K, k: K)
    ensures Queue(RegisterAll(m, vs, keyOf), k) == Queue(m, k) + Matching(vs, keyOf, k)
    ensures k in RegisterAll(m, vs, keyOf) <==> k in m || Matching(vs, keyOf, k) != []
  {
    RegisterAllContents(m, vs, keyOf, k);
    RegisterAllPresence(m, vs, keyOf, k);
  }

  lemma {:induction false} RegisterAllContents<K(!new), V>(m: map<K, seq<V>>, vs: seq<V>, keyOf: V -> K, k: K)
    ensures Queue(RegisterAll(m, vs, keyOf), k) == Queue(m, k) + Matching(vs, keyOf, k)
    decreases |vs|
  {
    if vs != [] {
      var m1 := Register(m, keyOf(vs[0]), vs[0]);
      RegisterAllContents(m1, vs[1..], keyOf, k);
      var rest := Matching(vs[1..], keyOf, k);
      if keyOf(vs[0]) == k {
        assert Matching(vs, keyOf, k) == [vs[0]] + rest;
        assert Queue(m1, k) == Queue(m, k) + [vs[0]];
        assert (Queue(m, k) + [vs[0]]) + rest == Queue(m, k) + ([vs[0]] + rest);
      } else {
        assert Matching(vs, keyOf, k) == rest;
        assert Queue(m1, k) == Queue(m, k);
      }
    }
  }

  lemma {:induction false} RegisterAllPresence<K(!new), V>(m: map<K, seq<V>>, vs: seq<V>, keyOf: V -> K, k: K)
    ensures k in RegisterAll(m, vs, keyOf) <==> k in m || Matching(vs, keyOf, k) != []
    decreases |vs|
  {
    if vs != [] {
      var m1 := Register(m, keyOf(vs[0]), vs[0]);
      RegisterAllPresence(m1, vs[1..], keyOf, k);
    }
  }

  /** The first entry registered under `k` heads the entries matching `k`. */
  lemma {:induction false} MatchingFirst<K, V>(vs: seq<V>, keyOf: V -> K, k: K, i: nat)
    requires i < |vs| && keyOf(vs[i]) == k
    requires forall j :: 0 <= j < i ==> keyOf(vs[j]) != k
    ensures Matching(vs, keyOf, k) != [] && Matching(vs, keyOf, k)[0] == vs[i]
    decreases i
  {
    if i > 0 {
      forall j | 0 <= j < i - 1 ensures keyOf(vs[1..][j]) != k {
        assert vs[1..][j] == vs[j + 1];
      }
      MatchingFirst(vs[1..], keyOf, k, i - 1);
    }
  }

  /** Nothing matches a key no entry has. */
  lemma {:induction false} MatchingNone<K, V>(vs: seq<V>, keyOf: V -> K, k: K)
    requires forall j :: 0 <= j < |vs| ==> keyOf(vs[j]) != k
    ensures Matching(vs, keyOf, k) == []
    decreases |vs|
  {
    if vs != [] {
      forall j | 0 <= j < |vs[1..]| ensures keyOf(vs[1..][j]) != k {
        assert vs[1..][j] == vs[j + 1];
      }
      MatchingNone(vs[1..], keyOf, k);
    }
  }
}
