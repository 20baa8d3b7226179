/** `sortByKey` from mockFetch.js: the canonical form of a fetch options
    object that makes the fetch key independent of property insertion order. */
module CanonicalKey {

  import opened Seqs
  import opened Values
  import KeyOrder

  /** How `sortByKey` copies one property value: a plain object is rebuilt by
      `sortByKey`; arrays, scalars and other objects are kept as they are. */
  function Canon(v: Value): Value
    decreases v, 2
  {
    if IsPlainObject(v) then Obj(v.tag, SortByKey(v.fields)) else v
  }

  /** `sortByKey(obj)`: reduce over the sorted property names of `obj`. */
  function SortByKey(obj: seq<Field>): seq<Field>
    decreases obj, 1
  {
    var keys := KeyOrder.Sort(Names(obj));
    SortedNamesPresent(obj);
    Reduce(keys, obj, [])
  }

  lemma SortedNamesPresent(obj: seq<Field>)
    ensures forall k :: k in KeyOrder.Sort(Names(obj)) ==> k in Names(obj)
  {
    forall k | k in KeyOrder.Sort(Names(obj)) ensures k in Names(obj) {
      assert k in multiset(KeyOrder.Sort(Names(obj)));
    }
  }

  /** The reduce callback: `Object.assign({[key]: ...}, ret)` makes a new
      object whose first property is `key`, followed by the properties of
      `ret` in their order. */
  function Reduce(keys: seq<string>, obj: seq<Field>, ret: seq<Field>): seq<Field>
    requires forall k :: k in keys ==> k in Names(obj)
    decreases obj, 0, |keys|
  {
    if keys == [] then ret
    else Reduce(keys[1..], obj, [Field(keys[0], Canon(obj[IndexOf(obj, keys[0])].value))] + ret)
  }

  /** The property the callback creates for `key`. */
  function Entry(obj: seq<Field>, k: string): Field
    requires k in Names(obj)
  {
    Field(k, Canon(Lookup(obj, k)))
  }

  function Entries(keys: seq<string>, obj: seq<Field>): (r: seq<Field>)
    requires forall k :: k in keys ==> k in Names(obj)
    ensures |r| == |keys|
  {
    if keys == [] then [] else [Entry(obj, keys[0])] + Entries(keys[1..], obj)
  }

  lemma {:induction false} EntriesAt(keys: seq<string>, obj: seq<Field>, n: nat)
    requires forall k :: k in keys ==> k in Names(obj)
    requires n < |keys|
    ensures Entries(keys, obj)[n] == Entry(obj, keys[n])
  {
    if n > 0 {
      EntriesAt(keys[1..], obj, n - 1);
    }
  }

  /** Each step puts the new property ahead of the accumulated ones, so the
      reduce lays the entries out in reverse order of `keys`. */
  lemma {:induction false} ReduceReverses(keys: seq<string>, obj: seq<Field>, ret: seq<Field>)
    requires forall k :: k in keys ==> k in Names(obj)
    ensures Reduce(keys, obj, ret) == Reverse(Entries(keys, obj)) + ret
    decreases |keys|
  {
    if keys != [] {
      var e := Entry(obj, keys[0]);
      ReduceReverses(keys[1..], obj, [e] + ret);
      assert ([e] + Entries(keys[1..], obj))[1..] == Entries(keys[1..], obj);
    }
  }

  /** Deep equality of objects up to the order of properties in plain
      objects; everything else is compared as it is, so arrays keep their
      element order. */
  ghost predicate SameObject(a: seq<Field>, b: seq<Field>)
    decreases a, 1
  {
    && DistinctNames(a) && DistinctNames(b)
    && (forall k :: k in Names(a) <==> k in Names(b))
    && forall i, j :: 0 <= i < |a| && 0 <= j < |b| && a[i].name == b[j].name ==>
         SameValue(a[i].value, b[j].value)
  }

  ghost predicate SameValue(v: Value, w: Value)
    decreases v, 0
  {
    if IsPlainObject(v) then IsPlainObject(w) && SameObject(v.fields, w.fields) else v == w
  }

  lemma {:induction false} SameObjectReflexive(a: seq<Field>)
    requires WellFormedObject(a)
    ensures SameObject(a, a)
    decreases a, 1
  {
    forall i, j | 0 <= i < |a| && 0 <= j < |a| && a[i].name == a[j].name
      ensures SameValue(a[i].value, a[j].value)
    {
      assert Names(a)[i] == Names(a)[j];
      assert i == j;
      SameValueReflexive(a[i].value);
    }
  }

  lemma {:induction false} SameValueReflexive(v: Value)
    requires IsPlainObject(v) ==> WellFormedObject(v.fields)
    ensures SameValue(v, v)
    decreases v, 0
  {
    if IsPlainObject(v) {
      SameObjectReflexive(v.fields);
    }
  }

  lemma {:induction false} SameObjectSymmetric(a: seq<Field>, b: seq<Field>)
    requires SameObject(a, b)
    ensures SameObject(b, a)
    decreases a, 1
  {
    forall i, j | 0 <= i < |b| && 0 <= j < |a| && b[i].name == a[j].name
      ensures SameValue(b[i].value, a[j].value)
    {
      SameValueSymmetric(a[j].value, b[i].value);
    }
  }

  lemma {:induction false} SameValueSymmetric(v: Value, w: Value)
    requires SameValue(v, w)
    ensures SameValue(w, v)
    decreases v, 0
  {
    if IsPlainObject(v) {
      SameObjectSymmetric(v.fields, w.fields);
    }
  }

  lemma {:induction false} SameObjectTransitive(a: seq<Field>, b: seq<Field>, c: seq<Field>)
    requires SameObject(a, b) && SameObject(b, c)
    ensures SameObject(a, c)
    decreases a, 1
  {
    forall i, k | 0 <= i < |a| && 0 <= k < |c| && a[i].name == c[k].name
      ensures SameValue(a[i].value, c[k].value)
    {
      assert Names(a)[i] == a[i].name;
      var j := IndexOf(b, a[i].name);
      SameValueTransitive(a[i].value, b[j].value, c[k].value);
    }
  }

  lemma {:induction false} SameValueTransitive(u: Value, v: Value, w: Value)
    requires SameValue(u, v) && SameValue(v, w)
    ensures SameValue(u, w)
    decreases u, 0
  {
    if IsPlainObject(u) {
      SameObjectTransitive(u.fields, v.fields, w.fields);
    }
  }

  lemma {:induction false} SameObjectWellFormed(a: seq<Field>, b: seq<Field>)
    requires SameObject(a, b)
    ensures WellFormedObject(a)
    decreases a, 1
  {
    forall i | 0 <= i < |a| && IsPlainObject(a[i].value)
      ensures WellFormedObject(a[i].value.fields)
    {
      assert Names(a)[i] == a[i].name;
      var j := IndexOf(b, a[i].name);
      SameObjectWellFormed(a[i].value.fields, b[j].value.fields);
    }
  }

  /** The layout of the canonical object: its names are the sorted names in
      reverse order, each plain-object value is itself canonicalised and every
      other value (arrays, scalars, non-plain objects) is copied unchanged. */
  lemma SortByKeyLayout(obj: seq<Field>)
    ensures Names(SortByKey(obj)) == Reverse(KeyOrder.Sort(Names(obj)))
    ensures forall i :: 0 <= i < |SortByKey(obj)| ==>
      SortByKey(obj)[i].name in Names(obj) && SortByKey(obj)[i].value == Canon(Lookup(obj, SortByKey(obj)[i].name))
  {
    var keys := KeyOrder.Sort(Names(obj));
    SortedNamesPresent(obj);
    ReduceReverses(keys, obj, []);
    var s := SortByKey(obj);
    assert s == Reverse(Entries(keys, obj));
    forall i | 0 <= i < |s|
      ensures Reverse(keys)[i] in Names(obj) && s[i] == Entry(obj, Reverse(keys)[i])
    {
      ReversedEntryAt(keys, obj, i);
    }
    assert Names(s) == Reverse(keys);
  }

  /** Position `i` of the reduce's output holds the entry of the `i`-th name
      counted from the end of `keys`. */
  lemma ReversedEntryAt(keys: seq<string>, obj: seq<Field>, i: nat)
    requires forall k :: k in keys ==> k in Names(obj)
    requires i < |keys|
    ensures Reverse(keys)[i] in Names(obj)
    ensures Reverse(Entries(keys, obj))[i] == Entry(obj, Reverse(keys)[i])
  {
    ReverseAt(Entries(keys, obj), i);
    ReverseAt(keys, i);
    EntriesAt(keys, obj, |keys| - 1 - i);
  }

  /** `sortByKey` recurses only into plain-object values: reading property
      `k` of the canonical object gives the canonicalised plain object, or the
      original value unchanged when it is an array, a scalar or a non-plain
      object. */
  lemma SortByKeyValueAt(obj: seq<Field>, k: string)
    requires k in Names(obj)
    ensures k in Names(SortByKey(obj))
    ensures !IsPlainObject(Lookup(obj, k)) ==> Lookup(SortByKey(obj), k) == Lookup(obj, k)
    ensures IsPlainObject(Lookup(obj, k)) ==>
      Lookup(SortByKey(obj), k) == Obj(PlainTag, SortByKey(Lookup(obj, k).fields))
  {
    var s := SortByKey(obj);
    SortByKeyLayout(obj);
    ReverseMultiset(KeyOrder.Sort(Names(obj)));
    assert k in multiset(Names(obj));
    assert k in multiset(Names(s));
    var i := IndexOf(s, k);
    assert s[i].value == Canon(Lookup(obj, k));
  }

  /** Canonicalising keeps every property and its value, up to property order. */
  lemma {:induction false} SortByKeyKeepsContent(obj: seq<Field>)
    requires WellFormedObject(obj)
    ensures SameObject(SortByKey(obj), obj)
    decreases obj, 1
  {
    var s := SortByKey(obj);
    SortByKeyKeepsNames(obj);
    SortByKeyLayout(obj);
    forall i, j | 0 <= i < |s| && 0 <= j < |obj| && s[i].name == obj[j].name
      ensures SameValue(s[i].value, obj[j].value)
    {
      LookupAt(obj, j);
      CanonKeepsContent(obj[j].value);
    }
  }

  /** The canonical object has the same property names, still distinct. */
  lemma SortByKeyKeepsNames(obj: seq<Field>)
    requires DistinctNames(obj)
    ensures DistinctNames(SortByKey(obj))
    ensures forall k :: k in Names(SortByKey(obj)) <==> k in Names(obj)
  {
    var keys := KeyOrder.Sort(Names(obj));
    var s := SortByKey(obj);
    SortByKeyLayout(obj);
    ReverseMultiset(keys);
    assert multiset(Names(s)) == multiset(Names(obj));
    DistinctSameMultiset(Names(obj), Names(s));
    forall k ensures k in Names(s) <==> k in Names(obj) {
      assert k in Names(s) <==> k in multiset(Names(s));
      assert k in Names(obj) <==> k in multiset(Names(obj));
    }
  }

  lemma {:induction false} CanonKeepsContent(v: Value)
    requires IsPlainObject(v) ==> WellFormedObject(v.fields)
    ensures SameValue(Canon(v), v)
    decreases v, 2
  {
    if IsPlainObject(v) {
      SortByKeyKeepsContent(v.fields);
    }
  }

  /** Objects that differ only in the order of their properties, at any depth
      of plain-object nesting, have the same canonical form. */
  lemma {:induction false} SortByKeyIgnoresOrder(a: seq<Field>, b: seq<Field>)
    requires SameObject(a, b)
    ensures SortByKey(a) == SortByKey(b)
    decreases a, 1
  {
    SameElementsSameMultiset(Names(a), Names(b));
    KeyOrder.SortPermutationInvariant(Names(a), Names(b));
    var keys := KeyOrder.Sort(Names(a));
    SortedNamesPresent(a);
    ReduceIgnoresOrder(keys, a, b, []);
  }

  lemma {:induction false} ReduceIgnoresOrder(keys: seq<string>, a: seq<Field>, b: seq<Field>, ret: seq<Field>)
    requires SameObject(a, b)
    requires forall k :: k in keys ==> k in Names(a)
    ensures forall k :: k in keys ==> k in Names(b)
    ensures Reduce(keys, a, ret) == Reduce(keys, b, ret)
    decreases a, 0, |keys|
  {
    if keys != [] {
      var i := IndexOf(a, keys[0]);
      var j := IndexOf(b, keys[0]);
      CanonIgnoresOrder(a[i].value, b[j].value);
      ReduceIgnoresOrder(keys[1..], a, b, [Field(keys[0], Canon(a[i].value))] + ret);
    }
  }

  lemma {:induction false} CanonIgnoresOrder(v: Value, w: Value)
    requires SameValue(v, w)
    ensures Canon(v) == Canon(w)
    decreases v, 2
  {
    if IsPlainObject(v) {
      SortByKeyIgnoresOrder(v.fields, w.fields);
    }
  }

  /** Two well-formed objects have the same canonical form exactly when they
      agree up to property order. */
  lemma SortByKeyEqualIff(a: seq<Field>, b: seq<Field>)
    requires WellFormedObject(a) && WellFormedObject(b)
    ensures SortByKey(a) == SortByKey(b) <==> SameObject(a, b)
  {
    if SortByKey(a) == SortByKey(b) {
      SortByKeyKeepsContent(a);
      SortByKeyKeepsContent(b);
      SameObjectSymmetric(SortByKey(a), a);
      SameObjectTransitive(a, SortByKey(a), b);
    }
    if SameObject(a, b) {
      SortByKeyIgnoresOrder(a, b);
    }
  }

  /** Canonicalising a canonical object changes nothing. */
  lemma SortByKeyIdempotent(obj: seq<Field>)
    requires WellFormedObject(obj)
    ensures WellFormedObject(SortByKey(obj))
    ensures SortByKey(SortByKey(obj)) == SortByKey(obj)
  {
    SortByKeyKeepsContent(obj);
    SameObjectWellFormed(SortByKey(obj), obj);
    SortByKeyIgnoresOrder(SortByKey(obj), obj);
  }
}
