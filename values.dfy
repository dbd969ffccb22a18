/**
 * JavaScript values of the kinds that `JSON.parse` yields, together with
 * `undefined`, which a read of a missing property yields, and the few
 * operators of the language that the negotiation code applies to them:
 * truthiness, `typeof`, `Array.isArray`, property access and `&&`.
 */
module JsValues {

  /**
   * Numbers are reals. `JSON.parse` rounds an out-of-range literal to
   * Infinity or 0; no check of the negotiation code depends on which number
   * it is, only on the value not being an object or an array.
   */
  datatype Value =
    | Undefined
    | Null
    | Bool(b: bool)
    | Number(n: real)
    | String(s: string)
    | Array(items: seq<Value>)
    | Object(fields: map<string, Value>)

  /** `!!v`: `undefined`, `null`, `false`, `0` (and `-0`) and `""` are falsy. */
  predicate Truthy(v: Value)
  {
    match v
    case Undefined => false
    case Null => false
    case Bool(b) => b
    case Number(n) => n != 0.0
    case String(s) => s != ""
    case Array(_) => true
    case Object(_) => true
  }

  /** `typeof v`; note that `typeof null` and `typeof []` are both "object". */
  function TypeOf(v: Value): (r: string)
    ensures r == "object" <==> v.Null? || v.Array? || v.Object?
  {
    match v
    case Undefined => "undefined"
    case Null => "object"
    case Bool(_) => "boolean"
    case Number(_) => "number"
    case String(_) => "string"
    case Array(_) => "object"
    case Object(_) => "object"
  }

  /** `Array.isArray(v)` */
  predicate IsArray(v: Value)
  {
    v.Array?
  }

  /**
   * `v[key]` for the property names the negotiation code reads
   * ("description", "iceCandidates", "type"): only an object's own fields
   * carry them; on every other value, and for a missing field, the read
   * gives `undefined`.
   */
  function Get(v: Value, key: string): Value
  {
    if v.Object? && key in v.fields then v.fields[key] else Undefined
  }

  /** `x && y`: the left operand when it is falsy, the right one otherwise. */
  function And(x: Value, y: Value): (r: Value)
    ensures Truthy(r) <==> Truthy(x) && Truthy(y)
    ensures !Truthy(x) ==> r == x
  {
    if Truthy(x) then y else x
  }
}
