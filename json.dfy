/**
 * Decoded JSON payloads, as `json.loads` returns them to the Python
 * programs. Numbers are integers only; floating point is not modelled.
 */
module Json {
  import opened Wrappers

  datatype Value =
    | Null
    | Bool(b: bool)
    | Num(n: int)
    | Str(s: string)
    | Arr(items: seq<Value>)
    | Obj(fields: map<string, Value>)

  /** Python truthiness of the decoded value. */
  predicate Truthy(v: Value) {
    match v
    case Null => false
    case Bool(b) => b
    case Num(n) => n != 0
    case Str(s) => |s| > 0
    case Arr(items) => |items| > 0
    case Obj(fields) => |fields| > 0
  }

  /** `d.get(key)` on a dict. */
  function Get(d: Value, key: string): (r: Option<Value>)
    requires d.Obj?
    ensures r.Some? <==> key in d.fields
    ensures r.Some? ==> r.value == d.fields[key]
  {
    if key in d.fields then Some(d.fields[key]) else None
  }

  /** Python's `v == 0`: true for the integer zero and for False. */
  predicate EqualsZero(v: Value) {
    v == Num(0) || v == Bool(false)
  }
}
