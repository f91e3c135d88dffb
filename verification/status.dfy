/** The `Response` block every typed reply embeds, and its business error
    (api.go:19-30). */
module Status {
  import opened Bytes
  import opened Errors
  import opened Optional
  import Decimal

  /** `Response`: `response_status`, `error_code`, `error_message`. */
  datatype Response = Response(responseStatus: GoString, errorCode: int64, errorMessage: GoString)

  /** ": ", between the code and the message. */
  const Colon := Ascii(": ")

  /** `Response.GetError`: nil unless the code is positive, and then the text
      `fmt.Sprintf("%d: %s", code, message)`. */
  function GetError(r: Response): (e: Option<GoString>)
    ensures e.Some? <==> r.errorCode > 0
    ensures e.Some? ==> e.value == Decimal.Itoa(r.errorCode) + Colon + r.errorMessage
  {
    if r.errorCode > 0 then Some(Decimal.Itoa(r.errorCode) + Colon + r.errorMessage) else None
  }

  /** The error text carries both fields recoverably: the part before ": " reads back
      as the code with `strconv.Atoi`, and the rest is the message verbatim. */
  lemma GetErrorReadsBack(r: Response)
    requires r.errorCode > 0
    ensures var text := GetError(r).value;
      var n := |Decimal.Itoa(r.errorCode)|;
      && Decimal.Atoi(text[..n]) == Success(r.errorCode)
      && text[n..n + 2] == Colon
      && text[n + 2..] == r.errorMessage
  {
    var text := GetError(r).value;
    var n := |Decimal.Itoa(r.errorCode)|;
    assert text[..n] == Decimal.Itoa(r.errorCode);
    Decimal.AtoiItoa(r.errorCode);
  }
}
