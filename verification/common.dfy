/**
 * Shared vocabulary of the backend model: optional values, the error kinds a
 * handler answers with (each with its HTTP status and JSON `error` text), and
 * the JavaScript truthiness tests the handlers apply to request fields.
 */
module Common {

  /** A value that may be absent (`undefined`/`null` in the handlers). */
  datatype Option<+T> = None | Some(value: T)

  /** The error answers of the backend. */
  datatype Error =
    | Unauthorized                  // 401, missing or malformed credential
    | InvalidToken                  // 401, token failed verification
    | InvalidCredentials            // 401, no account matched at login
    | Forbidden                     // 403, role not allowed
    | MissingScope                  // 403, tenant user lacks the capability
    | BadRequest(message: string)   // 400, validation failure
    | Constraint(message: string)   // 400 when caught: SQLite rejected the write
    | NotFound(message: string)     // 404, unknown device
  {
    /** The HTTP status the handlers answer this error with. */
    function Status(): (code: int)
      ensures code in {400, 401, 403, 404}
      // 401: no acceptable credential; 403: a credential without the right
      ensures code == 401 <==> this.Unauthorized? || this.InvalidToken? || this.InvalidCredentials?
      ensures code == 403 <==> this.Forbidden? || this.MissingScope?
      // 404 only for an unknown device; validation and database failures are 400
      ensures code == 404 <==> this.NotFound?
      ensures code == 400 <==> this.BadRequest? || this.Constraint?
    {
      match this
      case Unauthorized | InvalidToken | InvalidCredentials => 401
      case Forbidden | MissingScope => 403
      case BadRequest(_) | Constraint(_) => 400
      case NotFound(_) => 404
    }

    /** The `error` text of the JSON answer. */
    function Message(): string
    {
      match this
      case Unauthorized => "Unauthorized"
      case InvalidToken => "Invalid token"
      case InvalidCredentials => "Invalid credentials"
      case Forbidden => "Forbidden"
      case MissingScope => "Forbidden: missing scope"
      case BadRequest(m) => m
      case Constraint(m) => m
      case NotFound(m) => m
    }
  }

  /** The answer of a handler: a payload or an error. */
  datatype Result<+T> = Ok(value: T) | Err(error: Error)

  /** JavaScript truthiness of an optional string field: absent and "" are falsy. */
  predicate Given(s: Option<string>)
  {
    s.Some? && s.value != ""
  }

  /** JavaScript truthiness of an optional number field: absent and 0 are falsy. */
  predicate GivenNumber(n: Option<int>)
  {
    n.Some? && n.value != 0
  }
}
