/**
 * The slice of JavaScript's value semantics that index.js relies on:
 * plain data values, truthiness, property lookup (which throws a
 * TypeError on undefined and null) and the shallow merge of
 * lively.lang.obj.merge.
 */
module JsValues {
  import opened Wrappers

  /** A JSON-like JavaScript value; `Obj` is a plain object with own properties. */
  datatype Value =
    | Undefined
    | Null
    | Bool(b: bool)
    | Num(n: int)
    | Str(s: string)
    | Obj(fields: map<string, Value>)

  /** What a rejected promise carries. */
  datatype Error =
    | TypeError                      // a property read on undefined or null
    | Failed(message: string)        // `new Error(message)`
    | Rejected(reason: Value)        // a value thrown or rejected as it is

  /** JavaScript truthiness (numbers are integers here, so NaN does not arise). */
  predicate Truthy(v: Value) {
    match v
    case Undefined => false
    case Null => false
    case Bool(b) => b
    case Num(n) => n != 0
    case Str(s) => s != ""
    case Obj(_) => true
  }

  /** Truthiness of an optional string property (`undefined` or a string). */
  predicate Present(s: Option<string>) {
    s.Some? && s.value != ""
  }

  /** `v[key]`: a missing own property reads as undefined; reading from undefined or null throws. */
  function GetProp(v: Value, key: string): (r: Result<Value, Error>)
    ensures r.Err? <==> v.Undefined? || v.Null?
    ensures v.Obj? && key in v.fields ==> r == Ok(v.fields[key])
    ensures v.Obj? && key !in v.fields ==> r == Ok(Undefined)
  {
    match v
    case Undefined => Err(TypeError)
    case Null => Err(TypeError)
    case Obj(fields) => Ok(if key in fields then fields[key] else Undefined)
    case _ => Ok(Undefined)
  }

  /** The own properties a value contributes to a merge: none unless it is an object. */
  function OwnProps(v: Value): map<string, Value> {
    if v.Obj? then v.fields else map[]
  }

  /** lively.lang's object merge: a fresh object with a's properties, overridden by b's own ones. */
  function Merge(a: map<string, Value>, b: Value): (r: map<string, Value>)
    ensures r.Keys == a.Keys + OwnProps(b).Keys
    ensures forall k :: k in OwnProps(b) ==> r[k] == OwnProps(b)[k]
    ensures forall k :: k in a && k !in OwnProps(b) ==> r[k] == a[k]
  {
    a + OwnProps(b)
  }
}
