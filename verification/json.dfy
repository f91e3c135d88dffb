/** The generic JSON value `encoding/json` decodes into `interface{}` (RFC 8259). */
module Json {
  import opened Bytes

  /** A decoded JSON value. Objects are Go maps (`map[string]interface{}`): keys are
      unique and unordered. Numbers are kept integral; see README for floats. */
  datatype Json =
    | JNull
    | JBool(b: bool)
    | JNum(n: int)
    | JStr(s: GoString)
    | JArr(items: seq<Json>)
    | JObj(fields: map<GoString, Json>)

  /** `m[k]` on a Go map of `interface{}`: a missing key reads as `nil`, which a
      type switch cannot tell apart from a JSON `null`. */
  function Get(m: map<GoString, Json>, k: GoString): Json {
    if k in m then m[k] else JNull
  }

  /** Holds when `v` is a Go `string` under a type switch. */
  predicate IsString(v: Json) {
    v.JStr?
  }
}
