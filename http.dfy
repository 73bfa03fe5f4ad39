/** What a handler hands back to FastAPI: a reply with its status code and message,
    or a raised `HTTPException` with its status code and detail. */
module Http {
  import opened Digits

  datatype HttpError = HttpError(status: int, detail: string)

  /** A `JSONResponse`/`{"message": ...}` body with the status it is sent with. */
  datatype Reply = Reply(status: int, message: string)

  datatype Response<+T> = Ok(value: T) | Fail(error: HttpError)

  /** `str(e)` of an `HTTPException`: `"<status>: <detail>"`. This is what an
      `f"...{e}"` in a broad `except` puts into the new detail. */
  function Describe(e: HttpError): string {
    IntToString(e.status) + ": " + e.detail
  }

  /** `raise HTTPException(status_code=status, detail=prefix + str(e))` inside `except ... as e`. */
  function Rewrap(e: HttpError, status: int, prefix: string): HttpError {
    HttpError(status, prefix + Describe(e))
  }

  /** The status codes the handlers use, as `str()` writes them. */
  lemma StatusCodeText()
    ensures IntToString(400) == "400"
    ensures IntToString(404) == "404"
    ensures IntToString(500) == "500"
  {
    assert NatToDigits(40) == "40";
    assert NatToDigits(50) == "50";
  }

  /** `str(e)` of a 400, 404 or 500 error. */
  lemma DescribeStatus(e: HttpError)
    ensures e.status == 400 ==> Describe(e) == "400: " + e.detail
    ensures e.status == 404 ==> Describe(e) == "404: " + e.detail
    ensures e.status == 500 ==> Describe(e) == "500: " + e.detail
  {
    StatusCodeText();
  }
}
