/** The JavaScript values the extension receives from the API (parsed JSON) and
    passes between its two contexts, with the few language operations it applies
    to them: truthiness, reading a property, `String(value)` and object spread. */
module JsValues {
  import opened Strings

  /** A JavaScript value as produced by `JSON.parse`, plus `undefined`, which is
      what reading a missing property yields. Numbers are integers in this model. */
  datatype Json =
    | JUndefined
    | JNull
    | JBool(b: bool)
    | JNum(n: int)
    | JStr(s: string)
    | JArr(items: seq<Json>)
    | JObj(fields: map<string, Json>)

  /** A flattened device record: an object's own properties. */
  type Record = map<string, Json>

  /** JavaScript truthiness: `undefined`, `null`, `false`, `0` and `""` are falsy. */
  predicate Truthy(j: Json) {
    match j
    case JUndefined => false
    case JNull => false
    case JBool(b) => b
    case JNum(n) => n != 0
    case JStr(s) => s != []
    case _ => true
  }

  /** Values whose property reads throw a TypeError. */
  predicate Nullish(j: Json) {
    j.JUndefined? || j.JNull?
  }

  /** `j.key` for a non-nullish value: an object's own property, otherwise `undefined`
      (none of the keys the extension reads is inherited from a prototype). */
  function Get(j: Json, key: string): (v: Json)
    ensures !j.JObj? ==> v == JUndefined
    ensures j.JObj? ==> (v == if key in j.fields then j.fields[key] else JUndefined)
  {
    if j.JObj? && key in j.fields then j.fields[key] else JUndefined
  }

  /** `record.key`. */
  function Field(r: Record, key: string): Json {
    if key in r then r[key] else JUndefined
  }

  /** `String(j)`, as used by template literals: arrays join their elements with
      ",", writing `null` and `undefined` elements as empty strings. */
  function ToText(j: Json): string
    decreases j, 0
  {
    match j
    case JUndefined => "undefined"
    case JNull => "null"
    case JBool(b) => if b then "true" else "false"
    case JNum(n) => IntToString(n)
    case JStr(s) => s
    case JArr(xs) => Join(seq(|xs|, i requires 0 <= i < |xs| => ElementText(xs[i])), ",")
    case JObj(_) => "[object Object]"
  }

  /** How `Array.prototype.join` writes one element. */
  function ElementText(j: Json): string
    decreases j, 1
  {
    if Nullish(j) then "" else ToText(j)
  }

  /** The texts of a sequence of array elements. */
  function ElementTexts(xs: seq<Json>): (ts: seq<string>)
    ensures |ts| == |xs|
    ensures forall i :: 0 <= i < |xs| ==> ts[i] == ElementText(xs[i])
  {
    seq(|xs|, i requires 0 <= i < |xs| => ElementText(xs[i]))
  }

  /** The own enumerable properties that `{...j}` copies: an object's fields, an
      array's or a string's elements under their decimal indices, nothing otherwise. */
  function Spread(j: Json): (m: map<string, Json>)
    ensures j.JObj? ==> m == j.fields
    ensures j.JArr? ==> |m.Keys| == |j.items|
    ensures j.JArr? ==> forall i :: 0 <= i < |j.items| ==> NatToString(i) in m && m[NatToString(i)] == j.items[i]
    ensures j.JStr? ==> |m.Keys| == |j.s|
    ensures j.JStr? ==> forall i :: 0 <= i < |j.s| ==> NatToString(i) in m && m[NatToString(i)] == JStr([j.s[i]])
    ensures !(j.JObj? || j.JArr? || j.JStr?) ==> m == map[]
  {
    match j
    case JObj(fields) => fields
    case JArr(xs) => IndexKeysCount(|xs|); Indexed(xs)
    case JStr(s) => IndexKeysCount(|s|); Indexed(seq(|s|, i requires 0 <= i < |s| => JStr([s[i]])))
    case _ => map[]
  }

  /** The elements of `xs` keyed by their decimal indices. */
  function Indexed(xs: seq<Json>): (m: map<string, Json>)
    ensures m.Keys == IndexKeys(|xs|)
    ensures forall i :: 0 <= i < |xs| ==> NatToString(i) in m && m[NatToString(i)] == xs[i]
  {
    if xs == [] then map[]
    else
      var n := |xs| - 1;
      NatToStringInjective();
      Indexed(xs[..n])[NatToString(n) := xs[n]]
  }

  /** The decimal indices below `n`. */
  function IndexKeys(n: nat): set<string> {
    if n == 0 then {} else IndexKeys(n - 1) + {NatToString(n - 1)}
  }

  /** Exactly the decimal forms of the numbers below `n` are indices below `n`. */
  lemma {:induction false} IndexKeysMembers(n: nat)
    ensures forall i: nat :: NatToString(i) in IndexKeys(n) <==> i < n
  {
    NatToStringInjective();
    if n > 0 {
      IndexKeysMembers(n - 1);
    }
  }

  /** There are exactly `n` decimal indices below `n`. */
  lemma {:induction false} IndexKeysCount(n: nat)
    ensures |IndexKeys(n)| == n
  {
    if n > 0 {
      IndexKeysCount(n - 1);
      IndexKeysMembers(n - 1);
    }
  }
}
