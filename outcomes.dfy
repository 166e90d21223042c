/** Result shapes shared by the handlers: optional values, the outcome of
    binding a JSON request body, and the HTTP outcome of a handler. */
module Outcomes {

  datatype Option<+T> = None | Some(value: T)

  /** What binding a JSON request body produces: the decoded value, or the
      binder's error text (which the handlers echo back with status 400). */
  datatype Bound<+T> = Parsed(value: T) | BindError(message: string)

  /** The error responses a handler writes, each with its message text. */
  datatype Failure =
    | NotFound(message: string)
    | BadRequest(message: string)
    | Forbidden(message: string)
    | InternalError(message: string)
  {
    /** The HTTP status code written with this error. */
    function Code(): (code: nat)
      ensures 400 <= code < 600
      ensures code == 404 <==> NotFound?
      ensures code == 400 <==> BadRequest?
      ensures code == 403 <==> Forbidden?
      ensures code == 500 <==> InternalError?
    {
      match this
      case NotFound(_) => 404
      case BadRequest(_) => 400
      case Forbidden(_) => 403
      case InternalError(_) => 500
    }
  }

  /** A handler's response: 200 with a body, 201 with a created body, or an error. */
  datatype Outcome<+T> = Ok(value: T) | Created(value: T) | Fail(failure: Failure)
  {
    /** The HTTP status code of the response. */
    function Code(): (code: nat)
      ensures Fail? <==> code >= 400
      ensures Ok? <==> code == 200
      ensures Created? <==> code == 201
      ensures Fail? ==> code == failure.Code()
    {
      match this
      case Ok(_) => 200
      case Created(_) => 201
      case Fail(f) => f.Code()
    }
  }
}
