/** Dynamic values: the JSON bodies the Flask API reads and the JavaScript values the
    React client keeps in its store and forms, with the two languages' truth tests. */
module Values {

  datatype Option<T> = None | Some(value: T)

  /** A JSON or JavaScript value. Numbers are integral in this model; `Undefined`
      only arises on the JavaScript side (a property that is not there). */
  datatype Value =
    | Undefined
    | Null
    | Bool(b: bool)
    | Num(n: int)
    | Str(s: string)
    | Arr(items: seq<Value>)
    | Obj(fields: map<string, Value>)

  /** Python's truth test, as in `if not data.get(field)`. */
  predicate PyTruthy(v: Value)
  {
    match v
    case Undefined => false
    case Null => false
    case Bool(b) => b
    case Num(n) => n != 0
    case Str(s) => s != ""
    case Arr(xs) => xs != []
    case Obj(m) => m != map[]
  }

  /** JavaScript's truth test, as in `x || y` and `!x`: every array and object is truthy. */
  predicate JsTruthy(v: Value)
  {
    match v
    case Undefined => false
    case Null => false
    case Bool(b) => b
    case Num(n) => n != 0
    case Str(s) => s != ""
    case Arr(_) => true
    case Obj(_) => true
  }

  /** Python's `data.get(key)`: `None` when the key is absent. */
  function Get(data: map<string, Value>, key: string): (v: Value)
    ensures key in data ==> v == data[key]
    ensures key !in data ==> v == Null
  {
    if key in data then data[key] else Null
  }

  /** Python's `data.get(key, default)`: the default only when the key is absent. */
  function GetOr(data: map<string, Value>, key: string, default: Value): (v: Value)
    ensures key in data ==> v == data[key]
    ensures key !in data ==> v == default
  {
    if key in data then data[key] else default
  }

  /** JavaScript's `v.key`: `None` when it throws (reading a property of `null` or
      `undefined`), `Undefined` when the property is not there. */
  function Prop(v: Value, key: string): (r: Option<Value>)
    ensures r.None? <==> (v == Null || v == Undefined)
    ensures v.Obj? && key in v.fields ==> r == Some(v.fields[key])
  {
    match v
    case Undefined => None
    case Null => None
    case Obj(m) => Some(if key in m then m[key] else Undefined)
    case _ => Some(Undefined)
  }

  /** `o.key` on a JSON object: `undefined` when the key is not there. */
  function Member(o: map<string, Value>, key: string): (v: Value)
    ensures key in o ==> v == o[key]
    ensures key !in o ==> v == Undefined
  {
    if key in o then o[key] else Undefined
  }

  /** `v?.key`: `undefined` instead of throwing on `null` or `undefined`. */
  function OptProp(v: Value, key: string): (r: Value)
    ensures v == Null || v == Undefined ==> r == Undefined
    ensures v.Obj? ==> r == Member(v.fields, key)
  {
    match Prop(v, key)
    case None => Undefined
    case Some(x) => x
  }

  /** JavaScript's `a || b`. */
  function JsOr(a: Value, b: Value): (r: Value)
    ensures JsTruthy(a) ==> r == a
    ensures !JsTruthy(a) ==> r == b
  {
    if JsTruthy(a) then a else b
  }
}
