/** HTTP errors as the three services raise them, and the outer `except Exception`
    handler that every request handler wraps around its body. */
module Http {
  import opened PyStr

  const StatusOk: nat := 200
  const StatusBadRequest: nat := 400
  const StatusNotFound: nat := 404
  const StatusPayloadTooLarge: nat := 413
  const StatusInternalServerError: nat := 500

  /** An `HTTPException(status_code, detail)`. */
  datatype HttpError = HttpError(status: nat, detail: string)

  /** An exception that reaches a handler's `except Exception as e`: either an
      `HTTPException` raised by the handler itself, or any other exception, known
      only by its message `str(e)`. */
  datatype Raised = Http(error: HttpError) | Crash(message: string)

  /** `str(e)`; an `HTTPException` prints as "{status_code}: {detail}". */
  function Message(e: Raised): (m: string)
    ensures e.Crash? ==> m == e.message
    ensures e.Http? ==> EndsWith(m, ": " + e.error.detail) && StartsWith(m, DecimalString(e.error.status))
  {
    match e
    case Http(HttpError(status, detail)) =>
      EndsWithAppend(DecimalString(status), ": " + detail);
      DecimalString(status) + ": " + detail
    case Crash(message) => message
  }

  /** The outer handler: whatever was raised becomes a 500 whose detail is
      "{prefix}: {str(e)}". */
  function Reraise(prefix: string, e: Raised): (r: HttpError)
    ensures r.status == StatusInternalServerError
  {
    HttpError(StatusInternalServerError, prefix + ": " + Message(e))
  }

  /** A client error raised inside the handler surfaces as a 500, never as itself, and
      its status and message are kept in the detail. */
  lemma ClientErrorBecomesInternal(prefix: string, status: nat, detail: string)
    requires 400 <= status < 500
    ensures Reraise(prefix, Http(HttpError(status, detail))).status != status
    ensures Reraise(prefix, Http(HttpError(status, detail))).detail
         == prefix + ": " + DecimalString(status) + ": " + detail
  {
  }

  /** The decimal text of the status codes the services raise. */
  lemma StatusText()
    ensures DecimalString(200) == "200" && DecimalString(400) == "400" && DecimalString(404) == "404"
    ensures DecimalString(413) == "413" && DecimalString(500) == "500"
  {
    assert DecimalString(20) == "20" && DecimalString(40) == "40" && DecimalString(41) == "41" && DecimalString(50) == "50";
  }

  /** The detail of the 500 that re-raises an HTTP error, spelled out. */
  lemma InternalDetail(prefix: string, status: nat, detail: string)
    requires status in {400, 404, 413, 500}
    ensures Reraise(prefix, Http(HttpError(status, detail)))
         == HttpError(500, prefix + (if status == 400 then ": 400: " else if status == 404 then ": 404: " else if status == 413 then ": 413: " else ": 500: ") + detail)
  {
    StatusText();
    var code := DecimalString(status);
    var infix := if status == 400 then ": 400: " else if status == 404 then ": 404: " else if status == 413 then ": 413: " else ": 500: ";
    assert ": " + code + ": " == infix;
    assert prefix + ": " + (code + ": " + detail) == prefix + (": " + code + ": ") + detail;
  }

  /** The 500's detail starts with the handler's prefix and ends with what was raised. */
  lemma ReraiseKeepsMessage(prefix: string, e: Raised)
    ensures StartsWith(Reraise(prefix, e).detail, prefix + ": ")
    ensures EndsWith(Reraise(prefix, e).detail, Message(e))
  {
    EndsWithAppend(prefix + ": ", Message(e));
  }
}
