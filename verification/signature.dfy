/** The signature engine: signing a payload (`GetSignature`, api.go:69-75) and
    checking a response's signature (`CheckSignature`, api.go:113-131). */
module Signature {
  import opened Bytes
  import opened Json
  import opened Errors
  import opened Optional
  import opened Foreign
  import opened Config
  import Hex

  /** '|', the separator `strings.Join` puts between the secret and the payload. */
  const Separator: byte := 124

  const DataKey := Ascii("data")
  const SignatureKey := Ascii("signature")
  const ErrorMessageKey := Ascii("error_message")
  const ErrorCodeKey := Ascii("error_code")

  /** The bytes that are hashed: `strings.Join([]string{secret, data}, "|")`. */
  function Signed(api: Api, data: GoString): (s: GoString)
    ensures |s| == |api.options.secretKey| + 1 + |data|
    ensures s[..|api.options.secretKey|] == api.options.secretKey
    ensures s[|api.options.secretKey|] == Separator
    ensures s[|api.options.secretKey| + 1..] == data
  {
    api.options.secretKey + [Separator] + data
  }

  /** `GetSignature`: the SHA-1 digest of "<secret>|<data>" in lowercase hex. The
      result is 40 lowercase hex digits and reads back as exactly that digest. */
  function GetSignature(api: Api, lib: Lib, data: GoString): (r: GoString)
    ensures |r| == 40
    ensures forall i :: 0 <= i < |r| ==> Hex.IsLowerHexDigit(r[i])
    ensures Hex.Parse(r) == Some(lib.sha1(Signed(api, data)))
  {
    var digest := lib.sha1(Signed(api, data));
    Hex.ParseLower(digest);
    Hex.Lower(digest)
  }

  /** Two payloads get the same signature exactly when SHA-1 collides on them. */
  lemma SignatureDeterminesDigest(api: Api, lib: Lib, a: GoString, b: GoString)
    ensures GetSignature(api, lib, a) == GetSignature(api, lib, b)
        <==> lib.sha1(Signed(api, a)) == lib.sha1(Signed(api, b))
  {
  }

  /** Holds when the type switches of `CheckSignature` see both `data` and
      `signature` as strings. */
  predicate IsSigned(response: map<GoString, Json>) {
    IsString(Get(response, DataKey)) && IsString(Get(response, SignatureKey))
  }

  /** `CheckSignature`. A response whose `data` and `signature` are both strings is
      accepted iff the signature is the one computed for `data`, and is otherwise a
      mismatch, whatever else it carries. Only when one of the two is not a string
      does a string `error_message` produce the gateway's error (with `error_code`,
      nil when absent); failing that, the bare "Signature does not match". */
  function CheckSignature(api: Api, lib: Lib, response: map<GoString, Json>): (r: Outcome)
    ensures r.Pass? <==>
      IsSigned(response) && GetSignature(api, lib, response[DataKey].s) == response[SignatureKey].s
    ensures IsSigned(response) && r.Fail? ==>
      r.error == SignatureMismatch(GetSignature(api, lib, response[DataKey].s), response[SignatureKey].s)
    ensures !IsSigned(response) && IsString(Get(response, ErrorMessageKey)) ==>
      r == Fail(GatewayError(Get(response, ErrorCodeKey), response[ErrorMessageKey].s))
    ensures !IsSigned(response) && !IsString(Get(response, ErrorMessageKey)) ==>
      r == Fail(SignatureMissing)
  {
    match (Get(response, DataKey), Get(response, SignatureKey))
    case (JStr(data), JStr(signature)) =>
      var sign := GetSignature(api, lib, data);
      if sign == signature then Pass else Fail(SignatureMismatch(sign, signature))
    case _ =>
      match Get(response, ErrorMessageKey)
      case JStr(message) => Fail(GatewayError(Get(response, ErrorCodeKey), message))
      case _ => Fail(SignatureMissing)
  }
}
