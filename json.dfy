/** JSON values as the two Flask backends see them after `json.load` or `request.get_json()`. */
module Json {
  import opened Maybe

  /** A JSON value. JSON numbers are integers here: fractions are not part of this model. */
  datatype Value =
    | Null
    | Bool(b: bool)
    | Num(n: int)
    | Str(s: string)
    | Arr(items: seq<Value>)
    | Obj(fields: map<string, Value>)

  /** A reservation or a request body: a JSON object, i.e. a Python dict with string keys. */
  type Record = map<string, Value>

  /** Python's `d.get(key, default)`. */
  function GetOr(d: Record, key: string, default: Value): Value
  {
    if key in d then d[key] else default
  }

  /** The integer a value stands for in Python arithmetic and in `==` against an int:
      `True == 1` and `False == 0` hold in Python; None, strings, lists and dicts
      are never equal to an int and cannot be added to one. */
  function AsPyInt(v: Value): Option<int>
  {
    match v
    case Num(n) => Some(n)
    case Bool(b) => Some(if b then 1 else 0)
    case _ => None
  }

  /** Python's `int(v)`: integers and booleans convert, a string is handed to the
      string parser `parseText` (None for a ValueError), and None, lists and dicts
      raise a TypeError (None here). */
  function PyIntCall(v: Value, parseText: string -> Option<int>): (r: Option<int>)
    ensures v.Num? ==> r == Some(v.n)
    ensures v.Null? || v.Arr? || v.Obj? ==> r == None
  {
    match v
    case Str(s) => parseText(s)
    case _ => AsPyInt(v)
  }
}
