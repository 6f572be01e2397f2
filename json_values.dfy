/**
  The parsed JSON value that `JSON.parse` (JavaScript) and `json.loads` (Python) produce.
  Parsing itself is a library call and enters the model as a function parameter that
  yields one of these values; numbers are exact rationals.
*/
module JsonValues {
  import opened Common

  datatype Json =
    | JNull
    | JBool(b: bool)
    | JNum(n: real)
    | JStr(s: string)
    | JArr(items: seq<Json>)
    | JObj(fields: map<string, Json>)

  /** Property access `o.key` / `d.get(key)`: `None` stands for `undefined` / a missing key. */
  function Get(fields: map<string, Json>, key: string): Option<Json>
  {
    if key in fields then Some(fields[key]) else None
  }

  /** JavaScript truthiness of a possibly undefined value (`0`, `''`, `null`, `false` are falsy). */
  predicate JsTruthy(v: Option<Json>)
  {
    match v
    case None => false
    case Some(JNull) => false
    case Some(JBool(b)) => b
    case Some(JNum(n)) => n != 0.0
    case Some(JStr(s)) => s != ""
    case Some(_) => true
  }

  /** JavaScript `v || d`. */
  function JsOr(v: Option<Json>, d: Json): Json
  {
    if JsTruthy(v) then v.value else d
  }

  /** Python truthiness: empty lists and dicts are falsy as well. */
  predicate PyTruthy(v: Option<Json>)
  {
    match v
    case None => false
    case Some(JNull) => false
    case Some(JBool(b)) => b
    case Some(JNum(n)) => n != 0.0
    case Some(JStr(s)) => s != ""
    case Some(JArr(items)) => items != []
    case Some(JObj(fields)) => fields != map[]
  }

  /** Python `isinstance(v, (int, float))`; `bool` is a subclass of `int`. */
  predicate PyIsNumber(v: Option<Json>)
  {
    v.Some? && (v.value.JNum? || v.value.JBool?)
  }

  /** Python `isinstance(v, list)`. */
  predicate PyIsList(v: Option<Json>)
  {
    v.Some? && v.value.JArr?
  }

  /** Whole-valued numbers read back as Python `int`, others as `float`. */
  predicate IsWhole(n: real)
  {
    n == n.Floor as real
  }

  /** The name Python gives to the type of a decoded JSON value. */
  function PyTypeName(j: Json): string
  {
    match j
    case JNull => "NoneType"
    case JBool(_) => "bool"
    case JNum(n) => if IsWhole(n) then "int" else "float"
    case JStr(_) => "str"
    case JArr(_) => "list"
    case JObj(_) => "dict"
  }
}
