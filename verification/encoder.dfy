/** The request side of the envelope codec (api.go:52-67, 77-111): the body is
    flattened into a generic map, normalised, wrapped as {"order": ...}, base64'd,
    signed and put in the {"request": {data, version, signature}} envelope. */
module Encoder {
  import opened Bytes
  import opened Json
  import opened Errors
  import opened Foreign
  import opened Config
  import opened Signature
  import Base64

  const MerchantIdKey := Ascii("merchant_id")
  const ReservationDataKey := Ascii("reservation_data")
  const OrderKey := Ascii("order")
  const RequestKey := Ascii("request")
  const VersionKey := Ascii("version")

  /** The bytes `ToB64` encodes: a string's own bytes, anything else's JSON text. */
  function Payload(lib: Lib, v: Json): Result<GoString> {
    if v.JStr? then Success(v.s) else lib.marshal(v)
  }

  /** `ToB64`: a string is base64'd as its raw bytes, without JSON quoting; any other
      value is JSON-marshalled first. The only failure is the marshaller's, and the
      text decodes back to exactly the bytes that were encoded. */
  function ToB64(lib: Lib, v: Json): (r: Result<GoString>)
    ensures r.Failure? <==> !v.JStr? && lib.marshal(v).Failure?
    ensures r.Failure? ==> r.error == lib.marshal(v).error
    ensures r.Success? ==> Payload(lib, v).Success? && r.value == Base64.Encode(Payload(lib, v).value)
    ensures r.Success? ==> Base64.Decode(r.value) == Payload(lib, v)
    ensures v.JStr? ==> Base64.Decode(r.value) == Success(v.s)
  {
    match v
    case JStr(s) =>
      Base64.RoundTrip(s);
      Success(Base64.Encode(s))
    case _ =>
      var output :- lib.marshal(v);
      Base64.RoundTrip(output);
      Success(Base64.Encode(output))
  }

  /** The flattening step of `prepereData` (api.go:78-86): marshal the body and
      unmarshal the text into `map[string]interface{}`. Text that is not an object
      is an unmarshal type error. Text `null` leaves Go with a nil map, and the
      unconditional write of `merchant_id` into it (api.go:89) panics. */
  function Canonicalise(lib: Lib, body: Json): (r: Result<map<GoString, Json>>)
    ensures r.Success? <==>
      lib.marshal(body).Success? && lib.unmarshal(lib.marshal(body).value).Success?
      && lib.unmarshal(lib.marshal(body).value).value.JObj?
    ensures r.Success? ==> JObj(r.value) == lib.unmarshal(lib.marshal(body).value).value
    ensures Faithful(lib, body) && body.JObj? ==> r == Success(body.fields)
    ensures Faithful(lib, body) && body.JNull? ==> r.Failure? && r.error.Panic?
    ensures lib.marshal(body).Failure? ==> r == Failure(lib.marshal(body).error)
    ensures lib.marshal(body).Success? && lib.unmarshal(lib.marshal(body).value).Failure? ==>
      r == Failure(lib.unmarshal(lib.marshal(body).value).error)
    ensures lib.marshal(body).Success? && lib.unmarshal(lib.marshal(body).value) == Success(JNull) ==>
      r.Failure? && r.error.Panic?
    ensures (&& lib.marshal(body).Success? && lib.unmarshal(lib.marshal(body).value).Success?
             && !lib.unmarshal(lib.marshal(body).value).value.JObj?
             && !lib.unmarshal(lib.marshal(body).value).value.JNull?) ==>
      r == Failure(JsonTypeError(lib.unmarshal(lib.marshal(body).value).value))
  {
    var output :- lib.marshal(body);
    var doc :- lib.unmarshal(output);
    match doc
    case JObj(fields) => Success(fields)
    case JNull => Failure(Panic("assignment to entry in nil map"))
    case _ => Failure(JsonTypeError(doc))
  }

  /** Holds when `merchant_id` is to be defaulted: absent, or exactly the empty
      string (a Go `interface{}` equals "" only when it holds that string). */
  predicate MerchantIdMissing(m: map<GoString, Json>) {
    MerchantIdKey !in m || m[MerchantIdKey] == JStr([])
  }

  /** The field rules of `prepereData` (api.go:88-98), in order: default the merchant
      id, then replace a present `reservation_data` by `ToB64` of its value. */
  function Normalise(api: Api, lib: Lib, m: map<GoString, Json>): (r: Result<map<GoString, Json>>)
    ensures r.Failure? <==> ReservationDataKey in m && ToB64(lib, m[ReservationDataKey]).Failure?
    ensures r.Failure? ==> r.error == ToB64(lib, m[ReservationDataKey]).error
    ensures r.Success? ==> r.value.Keys == m.Keys + {MerchantIdKey}
    ensures r.Success? && MerchantIdMissing(m) ==>
      r.value[MerchantIdKey] == JNum(api.options.merchantId)
    ensures r.Success? && !MerchantIdMissing(m) ==>
      r.value[MerchantIdKey] == m[MerchantIdKey]
    ensures r.Success? && ReservationDataKey in m ==>
      r.value[ReservationDataKey].JStr?
      && Base64.Decode(r.value[ReservationDataKey].s) == Payload(lib, m[ReservationDataKey])
    ensures r.Success? && ReservationDataKey in m ==>
      r.value[ReservationDataKey] == JStr(ToB64(lib, m[ReservationDataKey]).value)
    ensures r.Success? ==>
      forall k :: k in m && k != MerchantIdKey && k != ReservationDataKey ==> r.value[k] == m[k]
  {
    var defaulted :=
      if MerchantIdMissing(m) then m[MerchantIdKey := JNum(api.options.merchantId)] else m;
    if ReservationDataKey in defaulted then
      var encoded :- ToB64(lib, defaulted[ReservationDataKey]);
      Success(defaulted[ReservationDataKey := JStr(encoded)])
    else Success(defaulted)
  }

  /** `{"order": m}`, the document whose JSON is base64'd into `data`. */
  function Order(m: map<GoString, Json>): Json {
    JObj(map[OrderKey := JObj(m)])
  }

  /** The three fields of the request envelope. */
  function RequestFields(api: Api, lib: Lib, data: GoString): map<GoString, Json> {
    map[DataKey := JStr(data),
        VersionKey := JStr(api.options.apiProtocol),
        SignatureKey := JStr(GetSignature(api, lib, data))]
  }

  /** The envelope {"request": fields} around encoded `data`. */
  function Envelope(api: Api, lib: Lib, data: GoString): Json {
    JObj(map[RequestKey := JObj(RequestFields(api, lib, data))])
  }

  /** The envelope has the single `request` key; its fields are exactly `data`,
      `version` and `signature`, and they pass the check a signed response is put
      through. */
  lemma EnvelopeSigned(api: Api, lib: Lib, data: GoString)
    ensures var env := Envelope(api, lib, data);
      && env.JObj? && env.fields.Keys == {RequestKey}
      && env.fields[RequestKey].JObj?
      && var req := env.fields[RequestKey].fields;
         && req.Keys == {DataKey, VersionKey, SignatureKey}
         && req[DataKey] == JStr(data)
         && req[VersionKey] == JStr(api.options.apiProtocol)
         && req[SignatureKey] == JStr(GetSignature(api, lib, data))
         && CheckSignature(api, lib, req) == Pass
  {
    var req := RequestFields(api, lib, data);
    assert Get(req, DataKey) == JStr(data);
    assert Get(req, SignatureKey) == JStr(GetSignature(api, lib, data));
  }

  /** Wrapping and signing a normalised map (api.go:100-110) into
      {"request": {"data", "version", "signature"}}. It fails only when the order
      document cannot be marshalled; otherwise `data` decodes to that document's
      JSON text, `version` is the configured protocol, and the request passes the
      signature check a response would be put through. */
  function Seal(api: Api, lib: Lib, m: map<GoString, Json>): (r: Result<Json>)
    ensures r.Failure? <==> lib.marshal(Order(m)).Failure?
    ensures r.Failure? ==> r.error == lib.marshal(Order(m)).error
    ensures r.Success? ==>
      && r.value.JObj? && r.value.fields.Keys == {RequestKey}
      && r.value.fields[RequestKey].JObj?
      && var req := r.value.fields[RequestKey].fields;
         && req.Keys == {DataKey, VersionKey, SignatureKey}
         && req[VersionKey] == JStr(api.options.apiProtocol)
         && req[DataKey].JStr? && req[SignatureKey].JStr?
         && Base64.Decode(req[DataKey].s) == lib.marshal(Order(m))
         && req[DataKey] == JStr(ToB64(lib, Order(m)).value)
         && req[SignatureKey].s == GetSignature(api, lib, req[DataKey].s)
         && CheckSignature(api, lib, req) == Pass
  {
    var data :- ToB64(lib, Order(m));
    EnvelopeSigned(api, lib, data);
    Success(Envelope(api, lib, data))
  }

  /** `prepereData`: flatten, normalise, seal, and marshal the envelope. */
  function PrepareData(api: Api, lib: Lib, body: Json): (r: Result<GoString>)
    ensures r.Success? ==>
      exists m, env ::
        && Canonicalise(lib, body).Success?
        && Normalise(api, lib, Canonicalise(lib, body).value) == Success(m)
        && Seal(api, lib, m) == Success(env)
        && lib.marshal(env) == r
    ensures Canonicalise(lib, body).Failure? ==> r == Failure(Canonicalise(lib, body).error)
    ensures Canonicalise(lib, body).Success? ==>
      var normal := Normalise(api, lib, Canonicalise(lib, body).value);
      && (normal.Failure? ==> r == Failure(normal.error))
      && (normal.Success? && Seal(api, lib, normal.value).Failure? ==>
            r == Failure(Seal(api, lib, normal.value).error))
      && (normal.Success? && Seal(api, lib, normal.value).Success? ==>
            r == lib.marshal(Seal(api, lib, normal.value).value))
  {
    var flat :- Canonicalise(lib, body);
    var normal :- Normalise(api, lib, flat);
    var envelope :- Seal(api, lib, normal);
    lib.marshal(envelope)
  }
}
