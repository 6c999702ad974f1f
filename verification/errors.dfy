/**
 * The routing errors (router/errors.go) and the other error values that flow
 * through the model: Go's `error` interface becomes the closed sum `Err`, and a
 * Go run-time panic becomes an explicit `Fault` instead of a precondition.
 */
module Errors {
  import Strconv

  /** HTTP status codes of RFC 9110: section 15.5.1, 15.5.5 and 15.5.6. */
  const StatusBadRequest: int := 400
  const StatusNotFound: int := 404
  const StatusMethodNotAllowed: int := 405
  /** RFC 9110 section 15.6.1, written for any error that is not a routing error. */
  const StatusInternalServerError: int := 500

  /** A routing error: an HTTP status code and a message. */
  datatype Error = Error(code: int, err: string) {

    /** The HTTP status code the error stands for. */
    function StatusCode(): int
    {
      code
    }

    /** The error string, Go's `Error()` method. */
    function Message(): string
    {
      err
    }
  }

  /** A routing error with the given status code and message. */
  function NewError(c: int, s: string): (e: Error)
    ensures e.StatusCode() == c
    ensures e.Message() == s
  {
    Error(c, s)
  }

  const ErrInvalidMethod: Error := NewError(StatusMethodNotAllowed, "invalid HTTP method")
  const ErrRouteNotFound: Error := NewError(StatusNotFound, "route not found")
  const ErrBadRequest: Error := NewError(StatusBadRequest, "bad request")

  /** The three predefined routing errors carry the status codes RFC 9110 gives them, and distinct messages. */
  lemma PredefinedErrors()
    ensures ErrInvalidMethod.StatusCode() == 405 && ErrInvalidMethod.Message() == "invalid HTTP method"
    ensures ErrRouteNotFound.StatusCode() == 404 && ErrRouteNotFound.Message() == "route not found"
    ensures ErrBadRequest.StatusCode() == 400 && ErrBadRequest.Message() == "bad request"
  {
  }

  /** A value of Go's `error` interface as the model meets it. */
  datatype Err =
    | Routing(e: Error)                // a *Error of this package
    | Plain(text: string)              // a value made by errors.New
    | Num(n: Strconv.NumError)         // a *strconv.NumError, passed on unchanged
    | Foreign(id: nat)                 // an error made by code outside the model (a user Scanner)

  const ErrInvalidPath: Err := Plain("invalid route path")

  /** A Go run-time panic. */
  datatype Fault = NilDereference | IndexOutOfRange

  /** The result of an operation that returns a value or an error, or panics. */
  datatype Outcome<+T> = Ok(value: T) | Fail(err: Err) | Panic(fault: Fault)
}
