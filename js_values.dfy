/**
 * The JavaScript values that flow through options and Grunt configuration,
 * with the language rules the generator layer depends on: truthiness,
 * `a || b`, property access that yields `undefined`, and `String(v)`.
 */
module JsValues {

  datatype JsValue =
    | Undefined
    | Null
    | Bool(b: bool)
    | Str(s: string)
    | Obj(fields: map<string, JsValue>)

  /** Options and configuration objects. */
  type Fields = map<string, JsValue>

  predicate Truthy(v: JsValue)
  {
    match v
    case Undefined => false
    case Null => false
    case Bool(b) => b
    case Str(s) => s != ""
    case Obj(_) => true
  }

  /**
   * `a || b`: one of the two operands, the first when it is truthy; the
   * result is truthy exactly when either operand is.
   */
  function Or(a: JsValue, b: JsValue): (r: JsValue)
    ensures r == a || r == b
    ensures Truthy(r) <==> Truthy(a) || Truthy(b)
    ensures Truthy(a) ==> r == a
    ensures !Truthy(a) ==> r == b
  {
    if Truthy(a) then a else b
  }

  /**
   * `o[k]`: a missing property reads as `undefined`, so reading cannot
   * tell a missing property from one set to `undefined`, and a truthy
   * read means the property is there.
   */
  function Get(o: Fields, k: string): (r: JsValue)
    ensures k in o ==> r == o[k]
    ensures k !in o ==> r == Undefined
    ensures r == Undefined <==> k !in o || o[k] == Undefined
    ensures Truthy(r) ==> k in o && Truthy(o[k])
  {
    if k in o then o[k] else Undefined
  }

  /** `String(v)`, as `v + ':'` uses it. */
  function ToJsString(v: JsValue): (text: string)
  {
    match v
    case Undefined => "undefined"
    case Null => "null"
    case Bool(b) => if b then "true" else "false"
    case Str(s) => s
    case Obj(_) => "[object Object]"
  }
}
