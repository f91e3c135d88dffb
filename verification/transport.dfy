/** `post` (api.go:170-203) with the HTTP exchange as a collaborator: the request is
    built, handed over, and the reply decoded only on status 200 or 201. */
module Transport {
  import opened Bytes
  import opened Json
  import opened Errors
  import opened Foreign
  import opened Config
  import opened Encoder
  import opened Decoder

  /** What the HTTP client hands back: the status code and the body read in full. */
  datatype Reply = Reply(status: int, content: GoString)

  /** The exchange: POST `body` to `url`, or fail with whatever error building the
      request, sending it or reading the reply reports. */
  type Send = (GoString, GoString) -> Result<Reply>

  predicate IsAccepted(status: int) {
    status == 200 || status == 201
  }

  /** `post`: nothing is sent when the request cannot be built, the reply is decoded
      only on status 200 or 201, and every other status is an error carrying the
      status and the raw body. */
  function Post(api: Api, lib: Lib, send: Send, path: GoString, body: Json, checkSignature: bool): (r: Result<Json>)
    ensures PrepareData(api, lib, body).Failure? ==> r == Failure(PrepareData(api, lib, body).error)
    ensures PrepareData(api, lib, body).Success? ==>
      var reply := send(api.apiUrl + path, PrepareData(api, lib, body).value);
      && (reply.Failure? ==> r == Failure(reply.error))
      && (reply.Success? && !IsAccepted(reply.value.status) ==>
            r == Failure(HttpStatus(reply.value.status, reply.value.content)))
      && (reply.Success? && IsAccepted(reply.value.status) ==>
            r == GetResponse(api, lib, reply.value.content, checkSignature))
  {
    var output :- PrepareData(api, lib, body);
    var reply :- send(api.apiUrl + path, output);
    if !IsAccepted(reply.status) then Failure(HttpStatus(reply.status, reply.content))
    else GetResponse(api, lib, reply.content, checkSignature)
  }
}
