/**
 * The JavaScript values the stores hold. A record is a plain object: a map from property
 * names to values; a property that is absent reads as `undefined`.
 */
module JsValue {
  import opened Wrappers

  /** Numbers the code produces are integers (Ids, parsed quantities) or `NaN`. */
  datatype Value =
    | Null
    | Num(n: int)
    | NaN
    | Str(s: string)
    | Arr(items: seq<Value>)
    | Obj(fields: map<string, Value>)

  type Record = map<string, Value>

  /** A property read: `None` is `undefined`. */
  function Get(r: Record, key: string): Option<Value> {
    if key in r then Some(r[key]) else None
  }

  /** JavaScript truthiness; `undefined` is falsy as well. */
  predicate Truthy(v: Option<Value>) {
    match v
    case None => false
    case Some(Null) => false
    case Some(NaN) => false
    case Some(Num(n)) => n != 0
    case Some(Str(s)) => s != ""
    case Some(_) => true
  }
}
