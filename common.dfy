/** Shared value shapes: optional values, results that carry a Python
    exception, and the HTTP response an endpoint produces. */
module Common {

  datatype Option<+T> = None | Some(value: T)

  /** The outcome of a step that may raise. Failure-compatible, so `:-`
      propagates the first exception, as a Python `raise` would. */
  datatype Result<+T> = Success(value: T) | Failure(error: Exception) {
    predicate IsFailure() { Failure? }
    function PropagateFailure<U>(): Result<U>
      requires Failure?
    {
      Failure(error)
    }
    function Extract(): T
      requires Success?
    {
      value
    }
  }

  /** The detail text of an HTTPException: either literal text, or a prefix
      followed by str() of a caught exception (the f-string
      `f"...: {str(e)}"`). The inner exception is kept as a value rather
      than rendered, so that what was caught stays observable. */
  datatype Detail = Text(text: string) | Wrapped(prefix: string, cause: Exception)

  /** The exceptions the modelled code raises or catches. */
  datatype Exception =
    | HTTPException(status: int, detail: Detail)
      /** `obj.attr` on a Pydantic model that has no such field */
    | AttributeError(typeName: string, attribute: string)
      /** PostgreSQL rejected a date literal (psycopg2 DataError) */
    | InvalidDate(literal: string)
      /** PostgreSQL primary-key violation (psycopg2 IntegrityError) */
    | UniqueViolation(table: string, key: int)
      /** `response.json()` on a body that is not JSON (JSONDecodeError) */
    | JsonDecodeError
      /** `email_result[key]` on a JSON value that is not an object holding
          `key` (KeyError, or TypeError for a non-object) */
    | MissingField(field: string)
      /** httpx.RequestError: the email service could not be reached */
    | RequestError

  /** What a FastAPI endpoint hands back: a body, or the HTTPException it
      raised (status and detail). */
  datatype Response<+T> = Ok(body: T) | Error(status: int, detail: Detail)

  /** Python truthiness of an optional string: None and "" are false. */
  predicate Truthy(s: Option<string>) {
    s.Some? && s.value != ""
  }

  /** Python truthiness of an optional boolean column: None and False are false. */
  predicate IsTrue(b: Option<bool>) {
    b == Some(true)
  }
}
