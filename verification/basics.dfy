/** Values shared by every page: optional values, the JavaScript values that
    flow through forms and decoded JSON blobs, and the backend's replies. */
module Basics {

  datatype Option<+T> = None | Some(value: T)

  /** A backend reply: the services never throw across their boundary, they
      hand back either the data or an error message. */
  datatype Result<+T> = Ok(value: T) | Err(error: string)

  /** A JavaScript value as it appears in form state or in a decoded JSON
      blob. A missing property (`undefined`) is represented by `JNull`. */
  datatype Json =
    | JNull
    | JBool(b: bool)
    | JNum(n: int)
    | JStr(s: string)
    | JArray(items: seq<Json>)
    | JObject(fields: map<string, Json>)

  /** JavaScript truthiness: null, false, 0 and the empty string are falsy. */
  predicate Truthy(v: Json) {
    match v
    case JNull => false
    case JBool(b) => b
    case JNum(n) => n != 0
    case JStr(s) => s != ""
    case JArray(_) => true
    case JObject(_) => true
  }

  /** JavaScript `a || b`. */
  function Or(a: Json, b: Json): (r: Json)
    ensures Truthy(a) ==> r == a
    ensures !Truthy(a) ==> r == b
  {
    if Truthy(a) then a else b
  }

  /** A nullable text column is truthy when it holds a non-empty string. */
  predicate Filled(o: Option<string>) {
    o.Some? && o.value != ""
  }

  /** The nullable text column as a JavaScript value. */
  function OfText(o: Option<string>): (r: Json)
    ensures Truthy(r) <==> Filled(o)
  {
    match o
    case None => JNull
    case Some(s) => JStr(s)
  }

  /** Property access `v.key` (and `v?.key`): only an object has properties. */
  function Prop(v: Json, key: string): (r: Json)
    ensures r != JNull ==> v.JObject? && key in v.fields && r == v.fields[key]
  {
    if v.JObject? && key in v.fields then v.fields[key] else JNull
  }

  /** Property access on an optional value, `v?.key`. */
  function PropOf(v: Option<Json>, key: string): (r: Json)
    ensures v.None? ==> r == JNull
  {
    match v
    case None => JNull
    case Some(j) => Prop(j, key)
  }

  /** The string held by a value, when it holds one: `v?.toLowerCase()` is
      only reached for strings. */
  function TextOf(v: Json): (r: Option<string>)
    ensures r.Some? <==> v.JStr?
  {
    if v.JStr? then Some(v.s) else None
  }
}
