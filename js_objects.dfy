/** The three top-level views the web app can render: the conference page,
    the welcome page and the landing page shown to mobile browsers. */
module Views {
  datatype View = Conference | WelcomePage | Landing
}

/** The small part of JavaScript's value and object semantics that the route
    resolver relies on: property reads that yield `undefined` for a missing
    key, property assignment, object spread, `===`, truthiness and
    `Array.prototype.every`. */
module JsObjects {
  import opened Views

  /** A JavaScript value as it can be held by a property of a route or of a
      Redux sub-state. Numbers are represented by their integral values plus
      NaN; functions and objects are references: a view component, or any
      other object identified by its identity. */
  datatype Value =
    | Undefined
    | Null
    | Bool(b: bool)
    | Num(n: int)
    | NaN
    | Str(s: string)
    | Component(view: View)
    | Ref(id: nat)

  /** The result of a lookup that may answer `undefined`. */
  datatype Option<T> = None | Some(value: T)

  /** `x === y`: primitives compare by value, objects by identity, and NaN
      equals nothing, not even itself. */
  predicate StrictEquals(x: Value, y: Value)
  {
    !x.NaN? && !y.NaN? && x == y
  }

  lemma StrictEqualsSymmetric(x: Value, y: Value)
    ensures StrictEquals(x, y) <==> StrictEquals(y, x)
  {
  }

  /** `===` is reflexive on every value except NaN. */
  lemma StrictEqualsReflexive(x: Value)
    ensures StrictEquals(x, x) <==> !x.NaN?
  {
  }

  /** The values `!x` turns into `true`. */
  const FalsyValues: set<Value> := {Undefined, Null, NaN, Bool(false), Num(0), Str("")}

  /** JavaScript's truthiness, as used by `!x`: every value is truthy except
      the six falsy ones. */
  predicate Truthy(x: Value)
    ensures !Truthy(x) <==> x in FalsyValues
  {
    match x
    case Undefined => false
    case Null => false
    case NaN => false
    case Bool(b) => b
    case Num(n) => n != 0
    case Str(s) => s != ""
    case Component(_) => true
    case Ref(_) => true
  }

  /** A plain object: its own enumerable string keys in insertion order
      (what `Object.keys` returns) and the value of each. */
  datatype RawObject = RawObject(keys: seq<string>, props: map<string, Value>)

  predicate WellFormed(o: RawObject)
  {
    && (forall i, j :: 0 <= i < j < |o.keys| ==> o.keys[i] != o.keys[j])
    && (forall i :: 0 <= i < |o.keys| ==> o.keys[i] in o.props)
    && (forall k :: k in o.props ==> k in o.keys)
  }

  type Object = o: RawObject | WellFormed(o) witness RawObject([], map[])

  /** `{}` */
  const EmptyObject: Object := RawObject([], map[])

  /** The property read `o[key]`: `undefined` when `o` has no such own key. */
  function Get(o: Object, key: string): Value
  {
    if key in o.props then o.props[key] else Undefined
  }

  /** The property assignment `o[key] = v`: an existing key keeps its place in
      the key order, a new key is appended to it. */
  function Put(o: Object, key: string, v: Value): (r: Object)
    ensures Get(r, key) == v
    ensures forall k :: k != key ==> Get(r, k) == Get(o, k)
    ensures key in o.keys ==> r.keys == o.keys
    ensures key !in o.keys ==> r.keys == o.keys + [key]
  {
    if key in o.props then
      RawObject(o.keys, o.props[key := v])
    else
      var keys := o.keys + [key];
      assert forall i :: 0 <= i < |o.keys| ==> keys[i] == o.keys[i];
      RawObject(keys, o.props[key := v])
  }

  /** The spread `{ ...src }` of an object or of `undefined`: a copy with the
      same own keys, in the same order, holding the same values; spreading
      `undefined` gives `{}`. */
  function Spread(src: Option<Object>): (r: Object)
    ensures src.None? ==> r.keys == [] && forall k :: Get(r, k) == Undefined
    ensures src.Some? ==> r.keys == src.value.keys
    ensures src.Some? ==> forall k :: Get(r, k) == Get(src.value, k)
  {
    match src
    case None => EmptyObject
    case Some(o) => o
  }

  /** `xs.every(p)`: visits `xs` from the front and stops at the first element
      that `p` rejects. */
  function Every<T>(xs: seq<T>, p: T -> bool): (r: bool)
    ensures r <==> forall i :: 0 <= i < |xs| ==> p(xs[i])
  {
    if xs == [] then true
    else if !p(xs[0]) then false
    else Every(xs[1..], p)
  }
}
