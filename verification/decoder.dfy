/** The response side of the envelope codec: `GetResponse` (api.go:133-168). The
    typed target a reply is finally unmarshalled into is represented by the generic
    JSON document it would be filled from. */
module Decoder {
  import opened Bytes
  import opened Json
  import opened Errors
  import opened Foreign
  import opened Config
  import opened Signature
  import Base64

  const ResponseKey := Ascii("response")

  /** `json.Unmarshal(content, &data)` into `map[string]interface{}`: an object gives
      its fields; `null` leaves the map nil, which reads as empty; any other document
      is a type error. */
  function ParseDocument(lib: Lib, content: GoString): (r: Result<map<GoString, Json>>)
    ensures r.Success? <==>
      lib.unmarshal(content).Success? && (lib.unmarshal(content).value.JObj? || lib.unmarshal(content).value.JNull?)
    ensures r.Success? && lib.unmarshal(content).value.JObj? ==> r.value == lib.unmarshal(content).value.fields
    ensures r.Success? && lib.unmarshal(content).value.JNull? ==> r.value == map[]
    ensures lib.unmarshal(content).Failure? ==> r == Failure(lib.unmarshal(content).error)
    ensures lib.unmarshal(content).Success? && !r.Success? ==>
      r == Failure(JsonTypeError(lib.unmarshal(content).value))
  {
    var doc :- lib.unmarshal(content);
    match doc
    case JObj(fields) => Success(fields)
    case JNull => Success(map[])
    case _ => Failure(JsonTypeError(doc))
  }

  /** `json.Marshal` then `json.Unmarshal` of a value, the re-decoding used when the
      reply is not a base64 envelope. */
  function Reencode(lib: Lib, v: Json): (r: Result<Json>)
    ensures Faithful(lib, v) ==> r == Success(v)
    ensures lib.marshal(v).Failure? ==> r == Failure(lib.marshal(v).error)
    ensures lib.marshal(v).Success? ==> r == lib.unmarshal(lib.marshal(v).value)
  {
    var output :- lib.marshal(v);
    lib.unmarshal(output)
  }

  /** `base64.StdEncoding.DecodeString` then `json.Unmarshal` of a string `data`. */
  function Unwrap(lib: Lib, data: GoString): (r: Result<Json>)
    ensures Base64.Decode(data).Failure? ==> r == Failure(Base64Corrupt)
    ensures Base64.Decode(data).Success? ==> r == lib.unmarshal(Base64.Decode(data).value)
  {
    var bytes :- Base64.Decode(data);
    lib.unmarshal(bytes)
  }

  /** `GetResponse`, branching on the shape of `response`:
      an object is first put through `CheckSignature` when `checkSignature` is set
      (its error ends the call), then a string `data` is base64-decoded and parsed,
      while any other `data` re-decodes the whole object; an array is re-decoded with
      no signature check; anything else (missing, null, a scalar) is "Response body
      is empty". */
  function GetResponse(api: Api, lib: Lib, content: GoString, checkSignature: bool): (r: Result<Json>)
    ensures r.Success? ==> ParseDocument(lib, content).Success?
    ensures r.Success? ==> var response := Get(ParseDocument(lib, content).value, ResponseKey);
      && (response.JObj? || response.JArr?)
      && (checkSignature && response.JObj? ==> CheckSignature(api, lib, response.fields) == Pass)
    ensures ParseDocument(lib, content).Failure? ==> r == Failure(ParseDocument(lib, content).error)
    ensures ParseDocument(lib, content).Success? ==>
      var doc := ParseDocument(lib, content).value;
      match Get(doc, ResponseKey)
      case JObj(o) =>
        if checkSignature && CheckSignature(api, lib, o).Fail? then
          r == Failure(CheckSignature(api, lib, o).error)
        else if IsString(Get(o, DataKey)) then
          r == Unwrap(lib, o[DataKey].s)
        else
          r == Reencode(lib, JObj(o))
      case JArr(a) => r == Reencode(lib, JArr(a))
      case _ => r == Failure(EmptyResponse(doc))
  {
    var doc :- ParseDocument(lib, content);
    match Get(doc, ResponseKey)
    case JObj(response) =>
      if checkSignature && CheckSignature(api, lib, response).Fail? then
        Failure(CheckSignature(api, lib, response).error)
      else (
        match Get(response, DataKey)
        case JStr(data) => Unwrap(lib, data)
        case _ => Reencode(lib, JObj(response)))
    case JArr(items) => Reencode(lib, JArr(items))
    case _ => Failure(EmptyResponse(doc))
  }
}
