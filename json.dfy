/**
 * The values `JSON.parse` produces and the few JavaScript operators the
 * exporter applies to them: truthiness, `||`, `?.` and plain property
 * access, and the `safe` getter. Numbers are integers here; parsing itself
 * is not modelled, and a text that fails to parse is `None`.
 */
module Json {
  import opened Wrappers

  datatype Json =
    | JNull
    | JBool(b: bool)
    | JNum(n: int)
    | JStr(s: string)
    | JArr(items: seq<Json>)
    | JObj(props: map<string, Json>)

  /** A JavaScript value as read from parsed JSON: `None` is `undefined`. */
  type Value = Option<Json>

  /** The falsy values are `undefined`, `null`, `false`, `0` and `''`. */
  predicate Truthy(v: Value) {
    match v
    case None => false
    case Some(j) =>
      match j
      case JNull => false
      case JBool(b) => b
      case JNum(n) => n != 0
      case JStr(s) => s != ""
      case _ => true
  }

  /** `a || b`: the first operand if it is truthy, else the second. */
  function Or(a: Value, b: Value): (r: Value)
    ensures Truthy(r) <==> Truthy(a) || Truthy(b)
  {
    if Truthy(a) then a else b
  }

  /** `safe(v)` of src/backend/exporter.js:648-650: a string stays, anything else is ''. */
  function Safe(v: Value): string {
    if v.Some? && v.value.JStr? then v.value.s else ""
  }

  /** `v?.key`: `undefined` on `undefined` or `null`, the own property of an object, `undefined` otherwise. */
  function OptProp(v: Value, key: string): Value {
    if v.Some? && v.value.JObj? && key in v.value.props then Some(v.value.props[key]) else None
  }

  /** `v.key` on a value from parsed JSON: a `TypeError` on `null`, else as `v?.key`. */
  function Prop(v: Json, key: string): (r: Result<Value>)
    ensures r.Err? <==> v == JNull
    ensures r.Ok? ==> r.value == OptProp(Some(v), key)
  {
    if v == JNull then Err("TypeError: Cannot read properties of null") else Ok(OptProp(Some(v), key))
  }

  /** A string is falsy exactly when it is empty, and `safe` gives it back. */
  lemma {:induction false} SafeString(s: string)
    ensures Truthy(Some(JStr(s))) <==> s != ""
    ensures Safe(Some(JStr(s))) == s
  {
  }

  /** `safe(x || '')` is `safe(x)`: a falsy operand's `safe` is already ''. */
  lemma {:induction false} SafeOrEmpty(v: Value)
    ensures Safe(Or(v, Some(JStr("")))) == Safe(v)
  {
  }

  /** `Array.isArray(v) ? v : []` for a property that may be missing. */
  function ArrayItems(v: Value): seq<Json> {
    if v.Some? && v.value.JArr? then v.value.items else []
  }
}
