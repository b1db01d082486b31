/**
 * JavaScript values as they reach the core: the JSON shapes (null, booleans,
 * numbers, strings, arrays, and objects as their ordered list of properties),
 * the truthiness test behind `if (x)` and `&&`, property reads, and the string
 * conversion a template literal `${x}` applies.
 *
 * `undefined` is not a value here: a property read that finds nothing yields
 * `None`, and `TemplateText(None)` is the text "undefined". Numbers are
 * integers.
 */
module JsonValues {
  import opened Wrappers
  import opened Text

  datatype Json =
    | JNull
    | JBool(b: bool)
    | JNum(n: int)
    | JStr(s: string)
    | JArr(items: seq<Json>)
    | JObj(entries: seq<(string, Json)>)

  /** JavaScript truthiness of a defined value: `null`, `false`, `0` and `""` are the falsy ones. */
  predicate Truthy(v: Json) {
    match v
    case JNull => false
    case JBool(b) => b
    case JNum(n) => n != 0
    case JStr(s) => s != ""
    case JArr(_) => true
    case JObj(_) => true
  }

  /** Truthiness of a value that may be `undefined` (`None`), which is falsy. */
  predicate TruthyOpt(o: Option<Json>) {
    o.Some? && Truthy(o.value)
  }

  /** The values JavaScript calls objects, leaving out `null`: arrays and objects. */
  predicate IsObjectLike(v: Json) {
    v.JArr? || v.JObj?
  }

  /** The property names of an object, in the order `Object.entries` yields them. */
  function Keys(entries: seq<(string, Json)>): (ks: seq<string>)
    ensures |ks| == |entries|
    ensures forall i :: 0 <= i < |entries| ==> ks[i] == entries[i].0
  {
    if entries == [] then [] else [entries[0].0] + Keys(entries[1..])
  }

  /** The value of the first property named `key`, if any. */
  function Lookup(entries: seq<(string, Json)>, key: string): (r: Option<Json>)
    ensures r.None? <==> key !in Keys(entries)
  {
    if entries == [] then None
    else if entries[0].0 == key then Some(entries[0].1)
    else
      assert Keys(entries) == [entries[0].0] + Keys(entries[1..]);
      Lookup(entries[1..], key)
  }

  /** The first property named `key` is the one read. */
  lemma {:induction false} LookupAt(entries: seq<(string, Json)>, i: nat, key: string)
    requires i < |entries| && entries[i].0 == key
    requires forall j :: 0 <= j < i ==> entries[j].0 != key
    ensures Lookup(entries, key) == Some(entries[i].1)
  {
    if i > 0 {
      LookupAt(entries[1..], i - 1, key);
    }
  }

  /** A property of another name in front does not change what is read. */
  lemma LookupSkip(entries: seq<(string, Json)>, key: string)
    requires |entries| > 0 && entries[0].0 != key
    ensures Lookup(entries, key) == Lookup(entries[1..], key)
  {
  }

  /**
   * `v.key`: an own property of an object. For the property names the core
   * reads (`fileKey`, `file_data`, `type`, `text`, ...), arrays, strings,
   * numbers and booleans have no property, so the read is `undefined`.
   * `null.key` throws in JavaScript; callers that can reach it test for
   * `JNull` first.
   */
  function Get(v: Json, key: string): (r: Option<Json>)
    ensures r.Some? ==> v.JObj?
    ensures v.JObj? ==> r == Lookup(v.entries, key)
  {
    match v
    case JObj(entries) => Lookup(entries, key)
    case _ => None
  }

  /** `key in v` for an object or array: an own property of that name exists. */
  predicate HasProperty(v: Json, key: string) {
    v.JObj? && key in Keys(v.entries)
  }

  /**
   * `String(v)`, the conversion `${v}` applies: arrays join their elements'
   * conversions with "," (a `null` element contributes nothing) and every
   * plain object reads "[object Object]".
   */
  function JsString(v: Json): string {
    match v
    case JNull => "null"
    case JBool(b) => if b then "true" else "false"
    case JNum(n) => IntToString(n)
    case JStr(s) => s
    case JArr(items) =>
      Join(seq(|items|, i requires 0 <= i < |items| =>
                 if items[i].JNull? then "" else JsString(items[i])), ',')
    case JObj(_) => "[object Object]"
  }

  /** `${o}` for a value that may be `undefined`. */
  function TemplateText(o: Option<Json>): string {
    match o
    case None => "undefined"
    case Some(v) => JsString(v)
  }

  /** The property `key: value`, or no property where the value is `undefined`. */
  function Property(key: string, value: Option<Json>): seq<(string, Json)> {
    if value.Some? then [(key, value.value)] else []
  }
}
