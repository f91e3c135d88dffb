/** Client configuration: `ApiOptions`, `Api` and the pure part of `NewApi`
    (api.go:32-43, 389-421). The two environment variables are parameters. */
module Config {
  import opened Bytes
  import opened Errors
  import Decimal

  /** `ApiOptions`: merchant id, secret key, request encoding, API host, protocol version. */
  datatype ApiOptions = ApiOptions(
    merchantId: int64,
    secretKey: GoString,
    requestType: GoString,
    apiDomain: GoString,
    apiProtocol: GoString)

  /** `Api`: the validated options and the base URL every endpoint path is appended to. */
  datatype Api = Api(options: ApiOptions, apiUrl: GoString)

  const DefaultRequestType := Ascii("json")
  const DefaultDomain := Ascii("api.fondy.eu")
  const Protocol := Ascii("2.0")

  /** Credentials are taken from the environment when either one is missing. */
  predicate NeedsEnvironment(o: ApiOptions) {
    o.merchantId == 0 || o.secretKey == []
  }

  /** `NewApi`, given the values of CLOUDIPSP_MERCHANT_ID and CLOUDIPSP_SECRETKEY.
      The request type defaults to "json", the domain to "api.fondy.eu" and the
      protocol to "2.0"; a missing merchant id or secret replaces BOTH from the
      environment. Each `panic` of the source is a `Panic` failure, in source order:
      an unparsable merchant id, a protocol other than "2.0", a type other than "json". */
  function NewApi(options: ApiOptions, envMerchantId: GoString, envSecretKey: GoString): (r: Result<Api>)
    ensures r.Success? <==>
      && (NeedsEnvironment(options) ==> Decimal.Atoi(envMerchantId).Success?)
      && (options.apiProtocol == [] || options.apiProtocol == Protocol)
      && (options.requestType == [] || options.requestType == DefaultRequestType)
    ensures r.Failure? ==> r.error.Panic?
    ensures r.Success? ==>
      var o := r.value.options;
      && o.requestType == DefaultRequestType
      && o.apiProtocol == Protocol
      && o.apiDomain == (if options.apiDomain == [] then DefaultDomain else options.apiDomain)
      && r.value.apiUrl == Ascii("https://") + o.apiDomain + Ascii("/api")
    ensures r.Success? && !NeedsEnvironment(options) ==>
      r.value.options.merchantId == options.merchantId && r.value.options.secretKey == options.secretKey
    ensures r.Success? && NeedsEnvironment(options) ==>
      r.value.options.merchantId == Decimal.Atoi(envMerchantId).value && r.value.options.secretKey == envSecretKey
  {
    var typed := if options.requestType == [] then options.(requestType := DefaultRequestType) else options;
    var credited :-
      if NeedsEnvironment(typed) then
        match Decimal.Atoi(envMerchantId)
        case Success(id) => Success(typed.(merchantId := id, secretKey := envSecretKey))
        case Failure(_) => Failure(Panic("Incorrect 'CLOUDIPSP_MERCHANT_ID' env variable"))
      else Success(typed);
    var hosted := if credited.apiDomain == [] then credited.(apiDomain := DefaultDomain) else credited;
    var versioned := if hosted.apiProtocol == [] then hosted.(apiProtocol := Protocol) else hosted;
    if versioned.apiProtocol != Protocol then Failure(Panic("Incorrect protocol version"))
    else if versioned.requestType != DefaultRequestType then Failure(Panic("Only 'json' encoding allowed"))
    else Success(Api(versioned, Ascii("https://") + versioned.apiDomain + Ascii("/api")))
  }

  /** Constructing a client from a client's own options, in the same environment,
      gives that client back: the defaults and the validation are a fixed point. */
  lemma NewApiIdempotent(options: ApiOptions, envMerchantId: GoString, envSecretKey: GoString)
    requires NewApi(options, envMerchantId, envSecretKey).Success?
    ensures NewApi(NewApi(options, envMerchantId, envSecretKey).value.options, envMerchantId, envSecretKey)
         == NewApi(options, envMerchantId, envSecretKey)
  {
  }
}
