/**
  The slice of JavaScript's value semantics that the class-name composer relies on:
  the primitive values it meets, truthiness, `||`, string conversion, property keys,
  `Array.prototype.join`, and reading a property of a plain object.
*/
module JsValues {

  datatype Option<T> = None | Some(value: T)

  /** The primitive values the library handles: `undefined`, `null`, booleans and strings. */
  datatype Scalar = Undefined | Null | Bool(b: bool) | Str(s: string)

  /** A class value: a primitive, or an array of class values nested to any depth. */
  datatype ClassValue = Leaf(v: Scalar) | Nested(items: seq<ClassValue>)

  /** `Boolean(x)` on a primitive. */
  predicate IsTruthy(x: Scalar) {
    match x
    case Undefined => false
    case Null => false
    case Bool(b) => b
    case Str(s) => s != ""
  }

  /** Truthiness of a class value; every array, even an empty one, is truthy. */
  predicate Truthy(c: ClassValue) {
    match c
    case Leaf(x) => IsTruthy(x)
    case Nested(_) => true
  }

  /** `a || b`, which yields one of its operands rather than a boolean. */
  function Or(a: ClassValue, b: ClassValue): (r: ClassValue)
    ensures r == a || r == b
    ensures Truthy(r) <==> Truthy(a) || Truthy(b)
    ensures Truthy(a) ==> r == a
    ensures !Truthy(a) ==> r == b
  {
    if Truthy(a) then a else b
  }

  function BoolText(b: bool): string {
    if b then "true" else "false"
  }

  /** `String(x)` on a primitive. */
  function ScalarToString(x: Scalar): string {
    match x
    case Undefined => "undefined"
    case Null => "null"
    case Bool(b) => BoolText(b)
    case Str(s) => s
  }

  /** `words.join(sep)` on strings. */
  function Join(sep: string, words: seq<string>): string {
    if words == [] then ""
    else if |words| == 1 then words[0]
    else words[0] + sep + Join(sep, words[1..])
  }

  /**
    How `Array.prototype.join` renders one element: `null` and `undefined` as the
    empty string, an array by its own `toString`, anything else by `String`.
  */
  function ElementText(c: ClassValue): string
    decreases c
  {
    match c
    case Leaf(Undefined) => ""
    case Leaf(Null) => ""
    case Leaf(x) => ScalarToString(x)
    case Nested(items) => ArrayToString(items)
  }

  /** `Array.prototype.toString`: the elements joined with commas. */
  function ArrayToString(items: seq<ClassValue>): string
    decreases items
  {
    Join(",", seq(|items|, i requires 0 <= i < |items| => ElementText(items[i])))
  }

  /** The key under which `obj[c]` reads a property: `String(c)`. */
  function PropertyKey(c: ClassValue): string {
    match c
    case Leaf(x) => ScalarToString(x)
    case Nested(items) => ArrayToString(items)
  }

  /**
    `booleanToString`: a boolean becomes its string form, any other value is left alone.
    The conversion never changes the property key a value reads; what it changes is
    truthiness, because `false` becomes the truthy `"false"`.
  */
  function BooleanToString(c: ClassValue): (r: ClassValue)
    ensures !(r.Leaf? && r.v.Bool?)
    ensures PropertyKey(r) == PropertyKey(c)
    ensures Truthy(r) <==> Truthy(c) || c == Leaf(Bool(false))
    ensures !(c.Leaf? && c.v.Bool?) ==> r == c
    ensures c.Leaf? && c.v.Bool? ==> r == Leaf(Str(BoolText(c.v.b)))
  {
    match c
    case Leaf(Bool(b)) => Leaf(Str(BoolText(b)))
    case _ => c
  }

  /** The entries of a plain object have distinct keys. */
  predicate DistinctKeys<V>(entries: seq<(string, V)>) {
    forall i, j :: 0 <= i < j < |entries| ==> entries[i].0 != entries[j].0
  }

  /**
    `obj[key]` on an object given by its entries in key order; `None` is a missing key.
    The first entry with the key is the one read.
  */
  function Get<V>(entries: seq<(string, V)>, key: string): (r: Option<V>)
    ensures r.Some? ==> (key, r.value) in entries
    ensures r.None? <==> forall i :: 0 <= i < |entries| ==> entries[i].0 != key
  {
    if entries == [] then None
    else if entries[0].0 == key then Some(entries[0].1)
    else Get(entries[1..], key)
  }

  /** With distinct keys, reading the key of an entry yields that entry's value. */
  lemma {:induction false} GetDistinct<V>(entries: seq<(string, V)>, i: nat)
    requires DistinctKeys(entries) && i < |entries|
    ensures Get(entries, entries[i].0) == Some(entries[i].1)
  {
    if i > 0 {
      assert entries[0].0 != entries[i].0;
      assert entries[1..][i - 1] == entries[i];
      GetDistinct(entries[1..], i - 1);
    }
  }
}
