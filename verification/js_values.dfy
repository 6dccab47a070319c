/** The JavaScript values the SAML callbacks and the relay-state parser look
    at: profile attributes and request fields are absent (`undefined`),
    `null`, a string, or -- for a multi-valued attribute or a repeated query
    parameter -- an array of strings.  An object is a map from its own keys;
    a key missing from the map is a property that does not exist. */
module JsValues {

  datatype JsValue = Undefined | Null | Str(s: string) | StrArray(items: seq<string>)

  type JsObject = map<string, JsValue>

  /** JavaScript truthiness: `undefined`, `null` and `""` are falsy; every
      array is truthy, even an empty one. */
  predicate Truthy(v: JsValue) {
    match v
    case Undefined => false
    case Null => false
    case Str(s) => s != ""
    case StrArray(_) => true
  }

  /** `o.key` */
  function Get(o: JsObject, key: string): JsValue {
    if key in o then o[key] else Undefined
  }

  /** `s.startsWith(prefix)` */
  predicate StartsWith(s: string, prefix: string) {
    |prefix| <= |s| && s[..|prefix|] == prefix
  }

  /** `items.join(sep)` */
  function Join(items: seq<string>, sep: string): string {
    if items == [] then ""
    else if |items| == 1 then items[0]
    else items[0] + sep + Join(items[1..], sep)
  }

  /** `String(v)`, also what a template literal `${v}` produces; an array
      converts to its elements joined with commas. */
  function ToJsString(v: JsValue): string {
    match v
    case Undefined => "undefined"
    case Null => "null"
    case Str(s) => s
    case StrArray(items) => Join(items, ",")
  }
}
