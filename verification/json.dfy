/** The decoded form of one upstream event payload. `json.loads` itself is
    not modelled: it is an abstract partial decoder handed in as a function
    from payload text to an optional `Decoded` value. */
module Json {
  import opened Wrappers

  /** A JSON value. Numbers are decimals `digits / 10^scale`. */
  datatype Json =
    | JNull
    | JBool(b: bool)
    | JNum(digits: int, scale: nat)
    | JStr(s: string)
    | JArray(items: seq<Json>)
    | JObject(fields: seq<(string, Json)>)

  /** Python truthiness of the decoded value. */
  predicate Truthy(v: Json) {
    match v
    case JNull => false
    case JBool(b) => b
    case JNum(d, _) => d != 0
    case JStr(s) => s != ""
    case JArray(items) => items != []
    case JObject(fields) => fields != []
  }

  /** A decoded JSON object, seen through the keys the relay reads.
      `otherKeys` records whether any other key is present, which is all
      that matters about them (an object is falsy only when it has no key). */
  datatype Record = Record(
    response: Option<Json>,
    delta: Option<Json>,
    finished: Option<Json>,
    usage: Option<Json>,
    relevant: Option<Json>,
    otherKeys: bool)

  /** Python truthiness of a dict: it has at least one key. */
  predicate RecordTruthy(r: Record) {
    r.response.Some? || r.delta.Some? || r.finished.Some? || r.usage.Some? || r.relevant.Some? || r.otherKeys
  }

  /** What `json.loads` returns for a payload: an object, or any other JSON
      value, of which only its truthiness matters to the relay. */
  datatype Decoded = Object(rec: Record) | NonObject(truthy: bool)

  predicate DecodedTruthy(d: Decoded) {
    match d
    case Object(r) => RecordTruthy(r)
    case NonObject(t) => t
  }

  /** An empty record: `{}`. */
  const EmptyRecord := Record(None, None, None, None, None, false)
}
