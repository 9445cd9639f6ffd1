/**
 * Values the customer handlers work with: JSON request values and the
 * DynamoDB attribute values they are stored as, together with the two
 * JavaScript rules every handler leans on (truthiness and property reads).
 */
module Values {

  datatype Option<T> = None | Some(value: T)

  /**
   * The outcome of a step that may throw inside a handler's `try` block:
   * a store request the store rejects, `JSON.parse` on malformed text, or a
   * property read on `null`. Every handler turns `Failed` into a 500.
   */
  datatype Outcome<T> = Ok(value: T) | Failed

  /**
   * A JSON value. Stored DynamoDB attributes (S, N, BOOL, NULL, M, L) are
   * represented by the same type, so `unmarshall` is the identity here; the
   * one place a handler exposes the store's own `{ S: … }` / `{ N: … }`
   * format is the `update` echo (`Store.WireAttrs`). Numbers are integers.
   */
  datatype Value =
    | Str(s: string)
    | Num(n: int)
    | Bool(b: bool)
    | Null
    | Obj(fields: map<string, Value>)
    | Arr(elems: seq<Value>)

  /** A stored item, or a JSON object: attribute name to value. */
  type Attrs = map<string, Value>

  /** JavaScript truthiness of a property read that may be `undefined` (None). */
  predicate Truthy(v: Option<Value>)
  {
    match v
    case None => false
    case Some(Str(s)) => s != ""
    case Some(Num(n)) => n != 0
    case Some(Bool(b)) => b
    case Some(Null) => false
    case Some(Obj(_)) => true
    case Some(Arr(_)) => true
  }

  /**
   * `v.key` for a value that is not `null` (on `null` the read throws, and
   * callers check that first). Only objects carry the properties the
   * handlers read; on strings, numbers, booleans and arrays they are
   * `undefined`.
   */
  function Member(v: Value, key: string): Option<Value>
  {
    if v.Obj? && key in v.fields then Some(v.fields[key]) else None
  }

  /** The raw `event.body`: absent or empty, text `JSON.parse` rejects, or parsed JSON. */
  datatype RequestBody = Absent | Malformed | Json(value: Value)

  /** `JSON.parse(event.body || "{}")`. */
  function ParseBody(body: RequestBody): (r: Outcome<Value>)
    ensures r.Failed? <==> body.Malformed?
    ensures body.Absent? ==> r == Ok(Obj(map[]))
    ensures body.Json? ==> r == Ok(body.value)
  {
    match body
    case Absent => Ok(Obj(map[]))
    case Malformed => Failed
    case Json(v) => Ok(v)
  }

  /** A path parameter passes `if (!customerId)` when present and non-empty. */
  predicate PresentParam(p: Option<string>)
  {
    p.Some? && p.value != ""
  }
}
