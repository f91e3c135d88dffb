# Fondy Go SDK: the signed envelope codec

This project models the envelope codec of the Fondy payment-gateway Go SDK (`api.go`) in Dafny.
Every endpoint call goes through this codec.

On the way out (`prepereData`), the request body is flattened into a generic JSON object map.
The map is then normalised: a missing or empty `merchant_id` gets the configured merchant id, and a present `reservation_data` is base64'd.
Next the map is wrapped as `{"order": map}`, JSON-marshalled and base64'd into `data`.
`data` is signed with the lowercase hex of SHA-1 over `secret|data`.
The result is emitted as `{"request": {"data", "version", "signature"}}`.

On the way back (`GetResponse`), the reply document is parsed.
What happens next depends on the shape of `response`:
- Object: the signature may be checked (`CheckSignature`). A string `data` is then base64-decoded and parsed. Otherwise the object itself is the payload.
- Array: no signature check. The array is the payload.
- Anything else: "Response body is empty".

`Response.GetError` turns a positive `error_code` into the error text `"<code>: <message>"`.

Modules, one per component:

- `Bytes`: Go bytes, byte strings and `int64`. A Go `string` is a byte sequence, so strings are `seq<byte>`.
- `Json`: the generic JSON value (RFC 8259). Objects are Go maps: keys are unique and unordered.
- `Errors`: the error kinds and the `Result`/`Outcome` wrappers. `Optional`: the `Option` wrapper.
- `Foreign`: the collaborators, passed in as total functions. These are SHA-1 (FIPS 180-4, 20-byte digests by type), `json.Marshal` and `json.Unmarshal`.
- `Base64`: concrete standard padded base64 (section 4 of RFC 4648), with Go's `StdEncoding` decoding rules.
- `Hex`: `%x`. `Decimal`: `%d` and `strconv.Atoi`.
- `Config`: `ApiOptions`, `Api`, and `NewApi` with the environment passed in.
- `Signature`: `GetSignature` and `CheckSignature`.
- `Encoder`: `ToB64` and the steps of `prepereData`.
- `Decoder`: `GetResponse`. `Transport`: `post` with the HTTP exchange as a parameter.
- `Status`: `Response.GetError`.
- `Laws`: properties that relate the two directions of the codec.

Facts about SHA-1 and `encoding/json` are never assumed globally.
A lemma that needs JSON to read back what it wrote requires it of the specific values involved (`Faithful`).

The model follows the code in three places that are easy to get wrong:
- When `data` and `signature` are both strings, `CheckSignature` reports a mismatch even if `error_message` is present. The gateway's error message wins only when one of the two is not a string (api.go:113-128).
- Request maps are Go maps, which have no key order; `json.Marshal` writes map keys in sorted order.
- A body that marshals to `null` does not produce an error value. Go unmarshals it to a nil map, and the write of `merchant_id` (api.go:89) panics. This is modelled as a `Panic` failure.

## Model

| member | source | states |
|---|---|---|
| `Base64.Encode` | api.go:66 | Encoded text is 4·⌈n/3⌉ characters long and contains no newline bytes |
| `Base64.Decode` | api.go:148 | When decoding yields n bytes, the text without newlines is 4·⌈n/3⌉ characters long; every failure is corrupt input |
| `Base64.EncodeZeroFill` | api.go:66 | After one trailing byte the text ends in "==" and the character before them carries zero in its low four bits; after two trailing bytes it ends in "=" and the character before it carries zero in its low two bits |
| `Base64.RoundTrip` | api.go:148 | Decoding what was encoded returns exactly the original bytes |
| `Base64.CharOfValue` | api.go:66 | For every byte the decoder accepts as an alphabet character, the encoder's character for that byte's value is the same byte |
| `Hex.Lower` | api.go:74 | `%x` gives two lowercase hex digits per byte |
| `Hex.ParseLower` | api.go:74 | The hex rendering reads back as the same bytes |
| `Hex.LowerParse` | api.go:74 | Lowercase hex is the only spelling: whatever reads back re-renders identically |
| `Hex.LowerInjective` | api.go:74 | Distinct digests render as distinct text |
| `Decimal.Itoa` | api.go:27 | `%d`: a non-negative number is its digits with no leading zero; a negative one is '-' then such digits |
| `Decimal.Atoi` | api.go:396 | On success the text is an optional '+' or '-' then at least one digit, and the result is the digits' value with the sign applied, so a value outside the 64-bit range fails; text with no digit fails; every signed or unsigned run of digits whose value fits a 64-bit `int` succeeds |
| `Decimal.AtoiItoa` | api.go:396 | `strconv.Atoi` reads back every 64-bit integer that `%d` prints |
| `Status.GetError` | api.go:25-30 | An error exists iff `ErrorCode > 0`; its text is the code in decimal, ": ", then the message |
| `Status.GetErrorReadsBack` | api.go:27 | The error text's prefix parses back to the code, followed by ": " and the verbatim message |
| `Config.NewApi` | api.go:389-421 | Defaults `json`, `api.fondy.eu` and `2.0`; a zero merchant id or empty secret replaces both from the environment; success iff the env id parses when needed and the protocol and type are allowed, and every failure is a panic; URL is `https://<domain>/api` |
| `Config.NewApiIdempotent` | api.go:389-421 | Rebuilding a client from its own options in the same environment gives the same client |
| `Signature.Signed` | api.go:71 | The hashed bytes are the secret, one '\|', then the data |
| `Signature.GetSignature` | api.go:69-75 | 40 lowercase hex characters that read back as SHA-1 of `secret\|data` |
| `Signature.SignatureDeterminesDigest` | api.go:69-75 | Two payloads share a signature iff SHA-1 collides on their signed bytes |
| `Signature.CheckSignature` | api.go:113-131 | Passes iff `data` and `signature` are strings and the signature matches. Both strings but differing is a mismatch whatever else is present. Otherwise a string `error_message` gives the gateway error with `error_code`, and anything else is "Signature does not match" |
| `Encoder.ToB64` | api.go:52-67 | Fails iff the value is not a string and cannot be marshalled. Success is exactly the base64 encoding of the string's raw bytes, or of the marshalled JSON of any other value, and decodes back to them |
| `Encoder.Canonicalise` | api.go:77-89 | Succeeds iff marshal then unmarshal gives an object, and returns its fields. A marshal error, or an unmarshal error after a successful marshal, is returned unchanged. A document that reads back as `null` ends in the nil-map panic; any other non-object document is a type error carrying it. A faithfully marshalled object comes back unchanged |
| `Encoder.Normalise` | api.go:88-98 | `merchant_id` is set to the configured id iff absent or exactly `""`, and is otherwise kept (null, numbers and non-empty strings included). A present `reservation_data` is replaced by exactly `ToB64` of its value, a string that decodes to its payload. No key is added except `merchant_id`, other keys keep their values, and the only failure is `reservation_data`'s marshal failure |
| `Encoder.Seal` | api.go:100-110 | Fails iff `{"order": m}` cannot be marshalled, and then with the marshaller's own error. Otherwise the envelope is exactly `{"request": {data, version, signature}}`, with `version` the configured protocol, `data` exactly `ToB64` of the order and decoding to its JSON, and the signature that of `data`, so it passes `CheckSignature` |
| `Encoder.EnvelopeSigned` | api.go:103-109 | The envelope has only the `request` key, whose fields are exactly `data`, the configured `version` and the signature of `data`, and those fields pass `CheckSignature` |
| `Encoder.PrepareData` | api.go:77-111 | Each step's failure (flattening, normalising, sealing, the final marshal) is returned unchanged; when every step succeeds the result is the marshalled envelope |
| `Decoder.ParseDocument` | api.go:134-137 | An object document gives its fields and `null` an empty (nil) map. An unmarshal error is returned unchanged, and any other document is a type error carrying it |
| `Decoder.Reencode` | api.go:154-157 | A marshal failure is returned unchanged. Otherwise the result is whatever unmarshalling the marshalled text gives, error included, so a faithfully marshalled value comes back as itself |
| `Decoder.Unwrap` | api.go:147-152 | Invalid base64 is corrupt input; valid base64 is parsed as JSON |
| `Decoder.GetResponse` | api.go:133-168 | Success needs a parsed document whose `response` is an object or an array, and a checked object reply that succeeds carried a valid signature. Per shape: an object is signature-checked first when asked (an error short-circuits), then a string `data` is unwrapped, otherwise the object is re-decoded; an array is re-decoded unchecked; anything else is the empty-body error |
| `Transport.Post` | api.go:170-203 | Nothing is sent if the request cannot be built; a reply is decoded only on status 200 or 201; other statuses give an error carrying status and body |
| `Laws.SealedOrderDecodes` | api.go:133-168 | Round trip: a reply carrying the signed fields of a sealed order decodes to exactly `{"order": m}`, with or without the signature check |
| `Laws.PrepareDataRoundTrip` | api.go:77-111 | The wire text parses back as the envelope; its version is the protocol, its signature verifies, and its data unwraps to `{"order": normalised map}` |
| `Laws.TamperedSignatureRejected` | api.go:113-124 | A wrong signature on string `data` is a mismatch error even when `error_message` is present |
| `Laws.UnsignedErrorReported` | api.go:125-128 | An unsigned reply with a string `error_message` yields the gateway's code and message under signature checking |
| `Laws.ArrayIgnoresSignatureFlag` | api.go:160-165 | An array reply decodes the same with or without signature checking, to the array itself |
| `Laws.BareObjectIsPayload` | api.go:153-158 | When the signature is not checked, a reply object without string `data` is itself the payload |

## Left out

- HTTP transport (api.go:170-203): building the request, the `User-Agent` and `Content-Type` headers, the client call and reading the body. These are one collaborator, `Transport.Send`. Only the status guard and the hand-off to `GetResponse` are modelled.
- Per-endpoint wrappers (api.go:205-387) are left out. They choose a path and a reply struct. They also include the `code.(int)` assertion in `PcidssStep1`, which panics on decoded JSON numbers, and the random UUID order id in `Settlement`.
- `NewApi` reads `CLOUDIPSP_MERCHANT_ID` and `CLOUDIPSP_SECRETKEY`. In the model these are parameters. Each `panic` is a `Panic` failure, and the options are not mutated in place.
- Struct-to-JSON conversion with `omitempty` tags (models.go) is left out. The request body is taken as a generic JSON value.
- Unmarshalling into the caller's typed target (reflection) is left out. `GetResponse` returns the generic document the target would be filled from.
- SHA-1 internals and JSON text printing and parsing are collaborators (`Foreign.Lib`). Because SHA-1 is abstract, no known digest vector is pinned.
- Floating point is left out. Go decodes every JSON number as `float64`, but the model keeps numbers as integers. The `float64` amount in models.go is not modelled.
- Error texts are not rendered, except for `GetError`, whose text is modelled in full. Errors are structured values carrying what the message is built from. This covers the `%v` rendering of `error_code` in `CheckSignature`, the byte offset of a base64 `CorruptInputError`, and the difference between `strconv.Atoi`'s syntax and range errors.
- Base64.Encode: its own contract states only the length and the absence of newlines. The zero-filled final group is stated separately by `Base64.EncodeZeroFill`. No lemma proves that the encoding is the only zero-filled text decoding to the same bytes.
- Base64.Decode: Go's non-strict decoder ignores the unused low bits of a final padded group, so several texts decode to the same bytes and encode-after-decode does not hold for every text. Only decode-after-encode is proved.
- Go's `int` is taken to be 64 bits wide, as on amd64 and arm64. The 32-bit ranges of `strconv.Atoi` and of `Response.ErrorCode` (an `int`) are not modelled.
