/** The `Error` record of the back end (Common/ReturnTypes/Error.cs) and the uniform
    `Result` that every use-case handler returns. */
module Errors {
  import opened Wrappers

  /** An error as it is sent to the client: `{code, message}`. */
  datatype Error = Error(code: string, message: string)

  /** The kinds of error the record's static members produce. */
  datatype ErrorKind = NoError | NullValue | ConditionNotMet | NotFound | PermissionDenied | Validation | ThirdParty

  /** The code string each kind carries. Codes are pairwise distinct: the code alone tells the kind. */
  function CodeOf(kind: ErrorKind): (code: string)
    ensures KindOfCode(code) == Some(kind)
  {
    match kind
    case NoError => ""
    case NullValue => "Error.NullValue"
    case ConditionNotMet => "Error.ConditionNotMet"
    case NotFound => "The specified entity was not found."
    case PermissionDenied => "Permission.Denied"
    case Validation => "Error.Validation"
    case ThirdParty => "There was an error calling extnernal api."
  }

  /** Classifies an error code; `None` for a code no member of the record produces. */
  function KindOfCode(code: string): Option<ErrorKind>
  {
    if code == "" then Some(NoError)
    else if code == "Error.NullValue" then Some(NullValue)
    else if code == "Error.ConditionNotMet" then Some(ConditionNotMet)
    else if code == "The specified entity was not found." then Some(NotFound)
    else if code == "Permission.Denied" then Some(PermissionDenied)
    else if code == "Error.Validation" then Some(Validation)
    else if code == "There was an error calling extnernal api." then Some(ThirdParty)
    else None
  }

  function KindOf(e: Error): Option<ErrorKind>
  {
    KindOfCode(e.code)
  }

  /** `Error.None`: empty code and empty message. */
  function NoneError(): (e: Error)
    ensures KindOf(e) == Some(NoError) && e.code == [] && e.message == []
  {
    Error(CodeOf(NoError), "")
  }

  /** `Error.NullValue`. */
  function NullValueError(): (e: Error)
    ensures KindOf(e) == Some(NullValue) && e.message == "The specified result value is null."
  {
    Error(CodeOf(NullValue), "The specified result value is null.")
  }

  /** `Error.ConditionNotMet`. */
  function ConditionNotMetError(): (e: Error)
    ensures KindOf(e) == Some(ConditionNotMet) && e.message == "The specified condition was not met."
  {
    Error(CodeOf(ConditionNotMet), "The specified condition was not met.")
  }

  /** `Error.NotFound(message)`: the message is passed through unchanged. */
  function NotFoundError(message: string): (e: Error)
    ensures KindOf(e) == Some(NotFound) && e.message == message
  {
    Error(CodeOf(NotFound), message)
  }

  /** `Error.PermissionDenied(message)`. */
  function PermissionDeniedError(message: string): (e: Error)
    ensures KindOf(e) == Some(PermissionDenied) && e.message == message
  {
    Error(CodeOf(PermissionDenied), message)
  }

  /** `Error.Validation(details)`. */
  function ValidationError(details: string): (e: Error)
    ensures KindOf(e) == Some(Validation) && e.message == details
  {
    Error(CodeOf(Validation), details)
  }

  /** `Error.ThirdPartyReqeustError(details)` (the source's spelling of the code text is kept). */
  function ThirdPartyRequestError(details: string): (e: Error)
    ensures KindOf(e) == Some(ThirdParty) && e.message == details
  {
    Error(CodeOf(ThirdParty), details)
  }

  /** Errors built by different factories never compare equal, whatever their messages. */
  lemma FactoriesDistinct(m1: string, m2: string)
    ensures NotFoundError(m1) != ValidationError(m2)
    ensures NotFoundError(m1) != ThirdPartyRequestError(m2)
    ensures NotFoundError(m1) != PermissionDeniedError(m2)
    ensures ValidationError(m1) != ThirdPartyRequestError(m2)
    ensures ValidationError(m1) != PermissionDeniedError(m2)
    ensures ThirdPartyRequestError(m1) != PermissionDeniedError(m2)
  {
    assert KindOf(NotFoundError(m1)) == Some(NotFound);
    assert KindOf(ValidationError(m1)) == Some(Validation);
    assert KindOf(ThirdPartyRequestError(m1)) == Some(ThirdParty);
    assert KindOf(ValidationError(m2)) == Some(Validation);
    assert KindOf(ThirdPartyRequestError(m2)) == Some(ThirdParty);
    assert KindOf(PermissionDeniedError(m2)) == Some(PermissionDenied);
  }

  /** What a handler hands back to its endpoint. `Fault` is an exception that escapes the
      handler instead of a `Result` (only the null dereference in DeleteQuiz produces one). */
  datatype Result<+T> = Success(value: T) | Failure(error: Error) | Fault(exception: string)
}
