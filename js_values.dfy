/**
 * JavaScript values as they come out of `JSON.parse`, plus `undefined`,
 * and the few operations the question pipeline applies to them: truthiness,
 * reading the `type` property, and object spread `{ ...v }`.
 */
module JsValues {
  import opened Wrappers
  import opened JsStrings

  datatype Value =
    | Undefined
    | Null
    | Bool(b: bool)
    | Num(n: real)
    | Str(s: string)
    | Arr(items: seq<Value>)
    | Obj(fields: map<string, Value>)

  /** A plain object: its own enumerable properties. */
  type Record = map<string, Value>

  /** `Boolean(v)` */
  predicate Truthy(v: Value) {
    match v
    case Undefined => false
    case Null => false
    case Bool(b) => b
    case Num(n) => n != 0.0
    case Str(s) => s != []
    case Arr(_) => true
    case Obj(_) => true
  }

  /** `r.key`; an absent property reads as `undefined`. */
  function Get(r: Record, key: string): (v: Value)
    ensures key !in r ==> v == Undefined
  {
    if key in r then r[key] else Undefined
  }

  /**
   * `v.type`: `null` has no properties (a TypeError, `Err`); objects give
   * their own `type` field; arrays, strings, numbers and booleans have no
   * property of that name.
   */
  function ReadType(v: Value): (r: Result<Value>)
    ensures r.Err? <==> v.Null? || v.Undefined?
  {
    match v
    case Null => Err("TypeError: Cannot read properties of null (reading 'type')")
    case Undefined => Err("TypeError: Cannot read properties of undefined (reading 'type')")
    case Obj(fields) => Ok(Get(fields, "type"))
    case _ => Ok(Undefined)
  }

  /**
   * Whether `${v}` succeeds. ToString of an object looks up `toString`, then
   * `valueOf`; a parsed object with its own `toString` property has nothing
   * callable there, and the inherited `valueOf` returns the object itself, so
   * the conversion throws a TypeError. An array converts through `join`, which
   * converts every element; every other value converts.
   */
  predicate Interpolates(v: Value) {
    match v
    case Obj(fields) => "toString" !in fields
    case Arr(items) => forall x :: x in items ==> Interpolates(x)
    case _ => true
  }

  /** The index-keyed record `{ "0": items[0], "1": items[1], ... }`. */
  function IndexRecord(items: seq<Value>): Record {
    if items == [] then map[]
    else IndexRecord(items[..|items| - 1])[NatToString(|items| - 1) := items[|items| - 1]]
  }

  /**
   * The own enumerable properties copied by `{ ...v }`: an object's fields,
   * an array's or a string's indices, and nothing for other values.
   */
  function Spread(v: Value): Record {
    match v
    case Obj(fields) => fields
    case Arr(items) => IndexRecord(items)
    case Str(s) => IndexRecord(seq(|s|, k requires 0 <= k < |s| => Str([s[k]])))
    case _ => map[]
  }
}
