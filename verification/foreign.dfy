/** The library code the SDK calls but does not implement: `crypto/sha1` and the
    generic parts of `encoding/json`. Each is a total function supplied by the caller,
    so every property proved below holds for every implementation of them. */
module Foreign {
  import opened Bytes
  import opened Json
  import opened Errors

  /** A SHA-1 digest (FIPS 180-4): exactly 20 bytes. */
  type Digest = d: seq<byte> | |d| == 20 witness seq(20, _ => 0)

  /** The collaborators: SHA-1, `json.Marshal` of a generic value and
      `json.Unmarshal` into `interface{}`. */
  datatype Lib = Lib(
    sha1: GoString -> Digest,
    marshal: Json -> Result<GoString>,
    unmarshal: GoString -> Result<Json>)

  /** `json.Marshal` accepts `v` and `json.Unmarshal` reads the text back as `v`. */
  predicate Faithful(lib: Lib, v: Json) {
    lib.marshal(v).Success? && lib.unmarshal(lib.marshal(v).value) == Success(v)
  }
}
