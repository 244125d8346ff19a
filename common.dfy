/** The JSON value type of lib/common.ts and `getFlatValues`, which reduces a
    nested matrix value to the ordered sequence of its scalar leaves. */
module Common {

  /** A parsed JSON value. An object keeps its entries as an ordered sequence:
      that order is the order in which `Object.values` enumerates them. */
  datatype Json =
    | JString(str: string)
    | JNumber(num: real)
    | JBool(b: bool)
    | JNull
    | JArray(items: seq<Json>)
    | JObject(entries: seq<(string, Json)>)

  /** A `JsonLiteral`: a string, number, boolean or null. */
  predicate IsScalar(v: Json) {
    !v.JArray? && !v.JObject?
  }

  /** JavaScript's `typeof v === 'object'`: objects, arrays and null. */
  predicate IsObjectTyped(v: Json) {
    v.JObject? || v.JArray? || v.JNull?
  }

  /** `Object.values`: the values of an object's entries, in order. */
  function Values(entries: seq<(string, Json)>): (vs: seq<Json>)
    ensures |vs| == |entries|
    ensures forall i :: 0 <= i < |entries| ==> vs[i] == entries[i].1
  {
    if entries == [] then [] else [entries[0].1] + Values(entries[1..])
  }

  /** A JSON value as `JSON.parse` produces it: no object repeats a key. */
  predicate WellFormed(v: Json) {
    match v
    case JArray(items) => forall i :: 0 <= i < |items| ==> WellFormed(items[i])
    case JObject(entries) =>
      (forall i, j :: 0 <= i < j < |entries| ==> entries[i].0 != entries[j].0) &&
      (forall i :: 0 <= i < |entries| ==> WellFormed(entries[i].1))
    case _ => true
  }

  /** Every element of a sequence is a scalar. */
  predicate AllScalars(s: seq<Json>) {
    forall i :: 0 <= i < |s| ==> IsScalar(s[i])
  }

  /** `getFlatValues`: a scalar is its own one-element sequence; an array
      flattens element by element (`flatMap`); an object flattens its values. */
  function Flatten(v: Json): (r: seq<Json>)
    ensures AllScalars(r)
    decreases v
  {
    match v
    case JArray(items) => FlattenAll(items)
    case JObject(entries) => FlattenEntries(entries)
    case _ => [v]
  }

  /** `items.flatMap(getFlatValues)`. */
  function FlattenAll(items: seq<Json>): (r: seq<Json>)
    ensures AllScalars(r)
    decreases items
  {
    if items == [] then [] else Flatten(items[0]) + FlattenAll(items[1..])
  }

  /** `getFlatValues` over the values of an object, in enumeration order. */
  function FlattenEntries(entries: seq<(string, Json)>): (r: seq<Json>)
    ensures AllScalars(r)
    decreases entries
  {
    if entries == [] then []
    else
      var e := entries[0];
      assert e in entries && e.1 < e;
      Flatten(e.1) + FlattenEntries(entries[1..])
  }

  /** The number of scalar leaves of a value, counted independently of the
      order in which they are visited. */
  function LeafCount(v: Json): (n: nat)
    decreases v
  {
    match v
    case JArray(items) => LeafCountAll(items)
    case JObject(entries) => LeafCountEntries(entries)
    case _ => 1
  }

  function LeafCountAll(items: seq<Json>): (n: nat)
    decreases items
  {
    if items == [] then 0 else LeafCount(items[0]) + LeafCountAll(items[1..])
  }

  function LeafCountEntries(entries: seq<(string, Json)>): (n: nat)
    decreases entries
  {
    if entries == [] then 0
    else
      var e := entries[0];
      assert e in entries && e.1 < e;
      LeafCount(e.1) + LeafCountEntries(entries[1..])
  }

  /** A scalar flattens to exactly itself. */
  lemma ScalarFlattensToItself(v: Json)
    requires IsScalar(v)
    ensures Flatten(v) == [v]
  {
  }

  /** Empty arrays and empty objects both flatten to nothing. */
  lemma EmptyFlattensToNothing()
    ensures Flatten(JArray([])) == []
    ensures Flatten(JObject([])) == []
  {
  }

  /** `flatMap` distributes over concatenation: an array flattens to the
      in-order concatenation of the flattenings of its parts. */
  lemma {:induction false} FlattenAllAppend(a: seq<Json>, b: seq<Json>)
    ensures FlattenAll(a + b) == FlattenAll(a) + FlattenAll(b)
    decreases a
  {
    if a == [] {
      assert a + b == b;
    } else {
      assert (a + b)[1..] == a[1..] + b;
      FlattenAllAppend(a[1..], b);
    }
  }

  /** An array flattens to the concatenation of its elements' flattenings,
      element by element: the single-element step of `flatMap`. */
  lemma {:induction false} FlattenArrayCons(x: Json, rest: seq<Json>)
    ensures Flatten(JArray([x] + rest)) == Flatten(x) + Flatten(JArray(rest))
  {
    assert ([x] + rest)[1..] == rest;
  }

  /** Flattening an object is flattening the array of its values
      (`getFlatValues(Object.values(values))`). */
  lemma {:induction false} ObjectFlattensAsArray(entries: seq<(string, Json)>)
    ensures Flatten(JObject(entries)) == Flatten(JArray(Values(entries)))
    decreases entries
  {
    if entries != [] {
      ObjectFlattensAsArray(entries[1..]);
      assert Values(entries)[1..] == Values(entries[1..]);
    }
  }

  /** `flatten({a: X, b: Y}) == flatten(X) + flatten(Y)` for distinct keys. */
  lemma TwoEntryObject(a: string, x: Json, b: string, y: Json)
    requires a != b
    ensures Flatten(JObject([(a, x), (b, y)])) == Flatten(x) + Flatten(y)
  {
    assert [(a, x), (b, y)][1..] == [(b, y)];
    assert [(b, y)][1..] == [];
    assert FlattenEntries([(b, y)]) == Flatten(y) + FlattenEntries([]);
  }

  /** A sequence of scalars is a fixed point of array flattening. */
  lemma {:induction false} FlattenAllScalars(s: seq<Json>)
    requires AllScalars(s)
    ensures FlattenAll(s) == s
    decreases s
  {
    if s != [] {
      FlattenAllScalars(s[1..]);
      assert s == [s[0]] + s[1..];
    }
  }

  /** Flattening is idempotent: flattening the array of a flattened result
      gives that result back. */
  lemma FlattenIdempotent(v: Json)
    ensures Flatten(JArray(Flatten(v))) == Flatten(v)
  {
    FlattenAllScalars(Flatten(v));
  }

  /** The result has exactly one element per scalar leaf of the input. */
  lemma {:induction false} FlattenLength(v: Json)
    ensures |Flatten(v)| == LeafCount(v)
    decreases v, 2
  {
    match v
    case JArray(items) => FlattenAllLength(items);
    case JObject(entries) => FlattenEntriesLength(entries);
    case _ =>
  }

  lemma {:induction false} FlattenAllLength(items: seq<Json>)
    ensures |FlattenAll(items)| == LeafCountAll(items)
    decreases items, 1
  {
    if items != [] {
      FlattenLength(items[0]);
      FlattenAllLength(items[1..]);
    }
  }

  lemma {:induction false} FlattenEntriesLength(entries: seq<(string, Json)>)
    ensures |FlattenEntries(entries)| == LeafCountEntries(entries)
    decreases entries, 1
  {
    if entries != [] {
      var e := entries[0];
      assert e in entries && e.1 < e;
      FlattenLength(e.1);
      FlattenEntriesLength(entries[1..]);
    }
  }
}
