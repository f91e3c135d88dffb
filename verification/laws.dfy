/** Properties that relate the request and response halves of the codec. */
module Laws {
  import opened Bytes
  import opened Json
  import opened Errors
  import opened Foreign
  import opened Config
  import opened Signature
  import opened Encoder
  import opened Decoder
  import Base64

  /** A reply document {"response": fields}. */
  function ResponseDocument(fields: map<GoString, Json>): Json {
    JObj(map[ResponseKey := JObj(fields)])
  }

  /** The signed fields `Seal` puts under "request". */
  function Sealed(api: Api, lib: Lib, m: map<GoString, Json>): map<GoString, Json>
    requires Seal(api, lib, m).Success?
  {
    Seal(api, lib, m).value.fields[RequestKey].fields
  }

  /** Round trip: a gateway that answers with the signed fields of a sealed order
      gives back, through `GetResponse`, exactly {"order": m}, whether or not the
      signature is checked (the secret is shared, so it verifies). */
  lemma SealedOrderDecodes(api: Api, lib: Lib, m: map<GoString, Json>, content: GoString, checkSignature: bool)
    requires Faithful(lib, Order(m))
    requires lib.unmarshal(content) == Success(ResponseDocument(Sealed(api, lib, m)))
    ensures GetResponse(api, lib, content, checkSignature) == Success(Order(m))
  {
  }

  /** The whole request path: the wire text `prepereData` produces parses back as the
      envelope, whose version is the configured protocol, whose signature verifies,
      and whose `data` decodes to {"order": normalised map}. */
  lemma PrepareDataRoundTrip(api: Api, lib: Lib, body: Json, m: map<GoString, Json>)
    requires Canonicalise(lib, body).Success?
    requires Normalise(api, lib, Canonicalise(lib, body).value) == Success(m)
    requires Faithful(lib, Order(m))
    requires Faithful(lib, Seal(api, lib, m).value)
    ensures PrepareData(api, lib, body).Success?
    ensures var wire := PrepareData(api, lib, body).value;
      && lib.unmarshal(wire) == Success(JObj(map[RequestKey := JObj(Sealed(api, lib, m))]))
      && Sealed(api, lib, m)[VersionKey] == JStr(api.options.apiProtocol)
      && CheckSignature(api, lib, Sealed(api, lib, m)) == Pass
      && Unwrap(lib, Sealed(api, lib, m)[DataKey].s) == Success(Order(m))
  {
  }

  /** A signed response whose signature is not the one computed for its `data` is
      rejected as a mismatch before anything is decoded, even when it also carries an
      `error_message`. */
  lemma TamperedSignatureRejected(api: Api, lib: Lib, content: GoString, o: map<GoString, Json>)
    requires lib.unmarshal(content) == Success(ResponseDocument(o))
    requires IsSigned(o) && o[SignatureKey].s != GetSignature(api, lib, o[DataKey].s)
    ensures GetResponse(api, lib, content, true)
         == Failure(SignatureMismatch(GetSignature(api, lib, o[DataKey].s), o[SignatureKey].s))
  {
  }

  /** An unsigned error reply surfaces the gateway's code and message even though the
      signature is checked: the error path needs no signature. */
  lemma UnsignedErrorReported(api: Api, lib: Lib, content: GoString, o: map<GoString, Json>)
    requires lib.unmarshal(content) == Success(ResponseDocument(o))
    requires !IsSigned(o) && IsString(Get(o, ErrorMessageKey))
    ensures GetResponse(api, lib, content, true)
         == Failure(GatewayError(Get(o, ErrorCodeKey), o[ErrorMessageKey].s))
  {
  }

  /** An array reply is never signature-checked: the flag makes no difference, and
      the array is what the target is filled from. */
  lemma ArrayIgnoresSignatureFlag(api: Api, lib: Lib, content: GoString, items: seq<Json>)
    requires lib.unmarshal(content) == Success(JObj(map[ResponseKey := JArr(items)]))
    requires Faithful(lib, JArr(items))
    ensures GetResponse(api, lib, content, true) == GetResponse(api, lib, content, false)
         == Success(JArr(items))
  {
  }

  /** A reply object without a string `data` is the payload itself. */
  lemma BareObjectIsPayload(api: Api, lib: Lib, content: GoString, o: map<GoString, Json>)
    requires lib.unmarshal(content) == Success(ResponseDocument(o))
    requires !IsString(Get(o, DataKey))
    requires Faithful(lib, JObj(o))
    ensures GetResponse(api, lib, content, false) == Success(JObj(o))
  {
  }
}
