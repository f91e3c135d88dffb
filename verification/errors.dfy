/** The error values the codec returns, and the failure-compatible wrappers used to
    thread them (Go's `(value, error)` pairs and bare `error` returns). */
module Errors {
  import opened Bytes
  import opened Json

  /** Every way a codec call can fail. Go reports them all as `error`; the model keeps
      the kind and the data the message is built from. */
  datatype Error =
      /** `encoding/json` could not marshal or parse. */
    | JsonError(reason: GoString)
      /** `json.Unmarshal` into a map met a document that is neither an object nor null. */
    | JsonTypeError(found: Json)
      /** `base64.StdEncoding.DecodeString` met corrupt input. */
    | Base64Corrupt
      /** `strconv.Atoi` rejected its text: not an optionally signed run of decimal
          digits, or a value outside the 64-bit `int` range. */
    | NotAnInt
      /** "Signature does not match: <expected> != <received>". */
    | SignatureMismatch(expected: GoString, received: GoString)
      /** "<error_code>: <error_message>" from an unsigned gateway error; the code
          is whatever value the response carried (nil when absent). */
    | GatewayError(code: Json, message: GoString)
      /** The bare "Signature does not match". */
    | SignatureMissing
      /** "Response body is empty: <document>". */
    | EmptyResponse(document: map<GoString, Json>)
      /** "Response code is: <status>; content: <body>". */
    | HttpStatus(status: int, content: GoString)
      /** A Go run-time panic (the program would stop rather than return). */
    | Panic(what: string)

  /** A value or the error that prevented it. */
  datatype Result<+T> = Success(value: T) | Failure(error: Error) {
    predicate IsFailure() {
      Failure?
    }

    function PropagateFailure<U>(): Result<U>
      requires Failure?
    {
      Failure(error)
    }

    function Extract(): T
      requires Success?
    {
      value
    }
  }

  /** A bare Go `error` result: `nil` or an error. */
  datatype Outcome = Pass | Fail(error: Error) {
    predicate IsFailure() {
      Fail?
    }

    function PropagateFailure<U>(): Result<U>
      requires Fail?
    {
      Failure(error)
    }
  }
}
