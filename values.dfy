/** JavaScript values as the mocks see them: fetch options, GraphQL variables
    and payloads. Only the structure the mocks inspect is kept. */
module Values {

  import opened Seqs

  datatype Option<+T> = None | Some(value: T)

  /** Scalars. Numbers are modelled as integers. */
  datatype Scalar = Undefined | Null | Bool(b: bool) | Num(n: int) | Str(s: string)

  /** An object carries the tag that `Object.prototype.toString` reports for it
      (the text between "[object " and "]"): "Object" for a plain object,
      something else ("Headers", "Date", ...) for other objects. Its fields are
      its own enumerable properties in insertion order. */
  datatype Value =
    | Prim(scalar: Scalar)
    | Arr(items: seq<Value>)
    | Obj(tag: string, fields: seq<Field>)

  datatype Field = Field(name: string, value: Value)

  const PlainTag: string := "Object"

  predicate IsPlainObject(v: Value) {
    v.Obj? && v.tag == PlainTag
  }

  /** `Object.keys`: the property names of an object, in order. */
  function Names(obj: seq<Field>): (r: seq<string>)
    ensures |r| == |obj|
    ensures forall i :: 0 <= i < |obj| ==> r[i] == obj[i].name
  {
    if obj == [] then [] else [obj[0].name] + Names(obj[1..])
  }

  /** A JavaScript object never has two properties with the same name. */
  predicate DistinctNames(obj: seq<Field>) {
    Distinct(Names(obj))
  }

  /** Distinct names at every level reached through plain-object values. */
  ghost predicate WellFormedObject(obj: seq<Field>)
    decreases obj
  {
    && DistinctNames(obj)
    && forall i :: 0 <= i < |obj| && IsPlainObject(obj[i].value) ==> WellFormedObject(obj[i].value.fields)
  }

  /** The position of property `k`, which `obj[k]` reads. */
  function IndexOf(obj: seq<Field>, k: string): (i: nat)
    requires k in Names(obj)
    ensures i < |obj| && obj[i].name == k
    ensures forall j :: 0 <= j < i ==> obj[j].name != k
  {
    if obj[0].name == k then 0 else 1 + IndexOf(obj[1..], k)
  }

  /** `obj[k]` for a property that is present. */
  function Lookup(obj: seq<Field>, k: string): Value
    requires k in Names(obj)
  {
    obj[IndexOf(obj, k)].value
  }

  /** In an object with distinct names, `obj[k]` is the value of the one
      property named `k`. */
  lemma LookupAt(obj: seq<Field>, i: nat)
    requires DistinctNames(obj) && i < |obj|
    ensures obj[i].name in Names(obj) && Lookup(obj, obj[i].name) == obj[i].value
  {
    assert Names(obj)[i] == obj[i].name;
    var j := IndexOf(obj, obj[i].name);
    assert Names(obj)[j] == obj[j].name;
  }

  /** A timer delay as the mocks compute it: `delay ? delay : 0`. */
  function DelayOrZero(delay: Option<int>): (d: int)
    ensures delay.None? ==> d == 0
    ensures delay.Some? ==> d == delay.value
  {
    match delay
    case None => 0
    case Some(n) => n
  }
}
