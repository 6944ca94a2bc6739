/**
 * Decoded JSON values, as Python's json module hands them to the server,
 * with the few Python operations the server applies to them: dict.get,
 * truthiness, str() and the error an attribute lookup on a non-dict raises.
 */
module Json {
  import opened Text

  /** A decoded JSON value. Objects are dicts; numbers are integers (floats are not modelled). */
  datatype Value =
    | JNull
    | JBool(b: bool)
    | JInt(i: int)
    | JStr(s: string)
    | JArr(items: seq<Value>)
    | JObj(fields: map<string, Value>)

  /** d.get(key, default) on a dict. */
  function GetOr(fields: map<string, Value>, key: string, default: Value): Value {
    if key in fields then fields[key] else default
  }

  /** d.get(key): a missing key reads as None. */
  function Get(fields: map<string, Value>, key: string): Value {
    GetOr(fields, key, JNull)
  }

  /** Python truthiness: None, False, 0, "", [] and {} are false, everything else true. */
  predicate Truthy(v: Value) {
    match v
    case JNull => false
    case JBool(b) => b
    case JInt(i) => i != 0
    case JStr(s) => s != ""
    case JArr(items) => items != []
    case JObj(fields) => fields != map[]
  }

  /** The Python type name of a decoded value. */
  function TypeName(v: Value): string {
    match v
    case JNull => "NoneType"
    case JBool(_) => "bool"
    case JInt(_) => "int"
    case JStr(_) => "str"
    case JArr(_) => "list"
    case JObj(_) => "dict"
  }

  /** str(e) of the AttributeError raised by `v.get(...)` when v is not a dict. */
  function NoGetMessage(v: Value): string {
    "'" + TypeName(v) + "' object has no attribute 'get'"
  }

  /**
   * str(v), as an f-string interpolates a value. Lists and dicts are written
   * as a fixed placeholder: their Python repr is not modelled.
   */
  function Show(v: Value): string {
    match v
    case JNull => "None"
    case JBool(b) => if b then "True" else "False"
    case JInt(i) => IntToDecimal(i)
    case JStr(s) => s
    case JArr(_) => "[...]"
    case JObj(_) => "{...}"
  }
}
