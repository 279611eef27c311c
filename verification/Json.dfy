/** JSON values as the archive service stores and returns them, with the
    JavaScript operations the service applies to objects: property read,
    truthiness, and spread-with-override. Numbers are integers here. */
module Json {
  import opened Wrappers

  datatype Json =
    | JNull
    | JBool(b: bool)
    | JNum(n: int)
    | JStr(s: string)
    | JArr(items: seq<Json>)
    | JObj(fields: Object)

  type Object = map<string, Json>

  /** `obj[key]`, with `None` for `undefined`. */
  function Get(obj: Object, key: string): Option<Json> {
    if key in obj then Some(obj[key]) else None
  }

  /** JavaScript truthiness; `undefined` (`None`) is falsy. */
  predicate Truthy(v: Option<Json>) {
    match v
    case None => false
    case Some(JNull) => false
    case Some(JBool(b)) => b
    case Some(JNum(n)) => n != 0
    case Some(JStr(s)) => s != ""
    case Some(_) => true
  }

  /** An object literal property whose value may be `undefined`: once the
      object is serialised, an `undefined` property is simply absent. */
  function PutDefined(obj: Object, key: string, v: Option<Json>): (r: Object)
    ensures v.Some? ==> r == obj[key := v.value]
    ensures v.None? ==> r == obj
  {
    match v
    case Some(x) => obj[key := x]
    case None => obj
  }

  /** `{...base, ...extra}`: every key of either, with `extra` winning. */
  function Spread(base: Object, extra: Object): (r: Object)
    ensures r.Keys == base.Keys + extra.Keys
    ensures forall k :: k in extra ==> r[k] == extra[k]
    ensures forall k :: k in base && k !in extra ==> r[k] == base[k]
  {
    base + extra
  }
}
