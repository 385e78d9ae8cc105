/** Failure-carrying values shared by every module of the model. */
module Wrappers {

  /** A value that may be absent: Python's `None` or a present value. */
  datatype Option<+T> = None | Some(value: T)

  /** The outcome of an endpoint: a value, or the error it raises. */
  datatype Result<+T, +E> = Ok(value: T) | Err(error: E)
}

/** The HTTP errors the backend raises, with the status and detail it sends. */
module Http {

  datatype HttpError =
    | Forbidden           // require_teacher_auth: no authenticated teacher
    | NotFound            // the activity name is not in the registry
    | AlreadySignedUp     // signup of an email already listed
    | NotSignedUp         // unregister of an email not listed
    | InvalidCredentials  // login with a wrong or unknown username/password

  /** The HTTP status code of the error response. */
  function Status(e: HttpError): (code: int)
    ensures 400 <= code < 500
    ensures code == 400 <==> (e.AlreadySignedUp? || e.NotSignedUp?)
    ensures code == 403 <==> e == Forbidden
    ensures code == 404 <==> e == NotFound
    ensures code == 401 <==> e == InvalidCredentials
  {
    match e
    case Forbidden => 403
    case NotFound => 404
    case AlreadySignedUp => 400
    case NotSignedUp => 400
    case InvalidCredentials => 401
  }

  /** The `detail` text of the error response. */
  function Detail(e: HttpError): (detail: string)
  {
    match e
    case Forbidden => "Teacher login is required for this action"
    case NotFound => "Activity not found"
    case AlreadySignedUp => "Student is already signed up"
    case NotSignedUp => "Student is not signed up for this activity"
    case InvalidCredentials => "Invalid teacher credentials"
  }
}
