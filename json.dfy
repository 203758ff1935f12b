/**
 * A parsed JSON value: the shape of request bodies sent to the document
 * store, of its responses, and of the object a language-model action carries.
 */
module Json {
  import opened Wrappers

  /** A JSON number is a real here. `JSON.parse` never gives `NaN`, but it reads a
      literal too large for a double (`1e400`) as `Infinity`; the model keeps the
      literal's real value. Only a number's truthiness is ever inspected, and both
      are truthy. */
  datatype Json =
    | JNull
    | JBool(b: bool)
    | JNumber(n: real)
    | JString(s: string)
    | JArray(items: seq<Json>)
    | JObject(fields: map<string, Json>)

  /** JavaScript truthiness of a parsed value. */
  predicate Truthy(j: Json) {
    match j
    case JNull => false
    case JBool(b) => b
    case JNumber(n) => n != 0.0
    case JString(s) => s != ""
    case _ => true
  }

  /** Property access `j.key`; `None` stands for `undefined`. */
  function Get(j: Json, key: string): Option<Json> {
    if j.JObject? && key in j.fields then Some(j.fields[key]) else None
  }

  /** Optional chaining `j?.key` on an optional value. */
  function Lookup(o: Option<Json>, key: string): Option<Json> {
    match o
    case Some(j) => Get(j, key)
    case None => None
  }

  /** The string held by an optional value, if it is one. */
  function AsString(o: Option<Json>): Option<string> {
    match o
    case Some(JString(s)) => Some(s)
    case _ => None
  }

  /** An object with a single key. */
  function Obj1(key: string, value: Json): Json {
    JObject(map[key := value])
  }
}
