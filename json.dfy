/**
  Already-parsed JSON values, as the Entity builder receives them, and the two
  pieces of JavaScript semantics the builder relies on: reading a property of a
  value, and turning a value into the string key under which a JavaScript
  object stores it.
*/
module Json {
  import opened Wrappers

  /** A parsed JSON value. A number carries the text JavaScript's `String()`
      gives it (`"1"`, `"2.5"`, `"1e+21"`); objects with repeated keys have
      already kept the last one, as `JSON.parse` does. */
  datatype Json =
    | JNull
    | JBool(b: bool)
    | JNum(text: string)
    | JStr(s: string)
    | JArr(elems: seq<Json>)
    | JObj(fields: map<string, Json>)

  /** Reading property `key` of `v`: `None` stands for `undefined`. Only
      objects have the properties the builder reads. */
  function Get(v: Json, key: string): (r: Option<Json>)
    ensures r.Some? <==> v.JObj? && key in v.fields
    ensures r.Some? ==> r.value == v.fields[key]
  {
    if v.JObj? && key in v.fields then Some(v.fields[key]) else None
  }

  /** JavaScript truthiness of a JSON value. */
  predicate Truthy(v: Json)
  {
    match v
    case JNull => false
    case JBool(b) => b
    case JNum(text) => text != "0"
    case JStr(s) => s != ""
    case JArr(_) => true
    case JObj(_) => true
  }

  /** The elements joined with commas, as `Array.prototype.join` does. */
  function JoinComma(parts: seq<string>): string
  {
    if parts == [] then ""
    else if |parts| == 1 then parts[0]
    else JoinComma(parts[..|parts| - 1]) + "," + parts[|parts| - 1]
  }

  /** The string key under which a JavaScript object stores `v`
      (`String(v)`): a string is its own key, an array is the comma-joined
      keys of its elements with `null` written as the empty string, and an
      object without an own `toString` key is `"[object Object]"`. An object
      with one makes `String(v)` throw; here it too is `"[object Object]"`. */
  function PropertyKey(v: Json): (k: string)
    ensures v.JStr? ==> k == v.s
  {
    match v
    case JNull => "null"
    case JBool(b) => if b then "true" else "false"
    case JNum(text) => text
    case JStr(s) => s
    case JArr(elems) =>
      JoinComma(seq(|elems|, i requires 0 <= i < |elems| =>
        if elems[i].JNull? then "" else PropertyKey(elems[i])))
    case JObj(_) => "[object Object]"
  }

  /** The keys of the elements of an array, in order. */
  function Keys(elems: seq<Json>): seq<string>
  {
    seq(|elems|, i requires 0 <= i < |elems| => PropertyKey(elems[i]))
  }

  /** The decimal digits of `n`: the key of array index `n`. */
  function NatKey(n: nat): string
  {
    var digit := ['0' + (n % 10) as char];
    if n < 10 then digit else NatKey(n / 10) + digit
  }

  /** Whether `p` is an own property of `v`, as `v.hasOwnProperty(p)`
      answers it: an object's keys, and the indices and `length` of an array
      or a string. `null` has no properties to ask about. */
  predicate HasOwnProperty(v: Json, p: string)
    requires !v.JNull?
  {
    match v
    case JObj(m) => p in m
    case JArr(elems) => p == "length" || exists i :: 0 <= i < |elems| && NatKey(i) == p
    case JStr(s) => p == "length" || exists i :: 0 <= i < |s| && NatKey(i) == p
    case _ => false
  }
}
