/** The HTTP answers the minimal-API endpoints build from a handler's `Result`. */
module Http {
  import opened Wrappers
  import opened Errors

  datatype Response<T> =
    | Ok(body: Option<T>)              // Results.Ok() / Results.Ok(value)
    | Created(location: string, value: T)
    | NoContent
    | BadRequest(error: Error)
    | BadRequestText(text: string)     // Results.BadRequest("...") with a plain message
    | NotFoundResponse(error: Error)
    | ServerError                      // an exception that escapes the endpoint

  function StatusCode<T>(r: Response<T>): (code: int)
    ensures 200 <= code <= 500
    ensures code < 300 <==> (r.Ok? || r.Created? || r.NoContent?)
  {
    match r
    case Ok(_) => 200
    case Created(_, _) => 201
    case NoContent => 204
    case BadRequest(_) => 400
    case BadRequestText(_) => 400
    case NotFoundResponse(_) => 404
    case ServerError => 500
  }

  /** `IsSuccess ? Results.Created(location, value) : Results.BadRequest(Error)`. */
  function CreatedOrBadRequest<T>(location: string, r: Result<T>): (h: Response<T>)
    ensures StatusCode(h) == 201 <==> r.Success?
    ensures r.Success? ==> h == Created(location, r.value)
    ensures r.Failure? ==> h == BadRequest(r.error)
    ensures r.Fault? ==> StatusCode(h) == 500
  {
    match r
    case Success(v) => Created(location, v)
    case Failure(e) => BadRequest(e)
    case Fault(_) => ServerError
  }

  /** `IsSuccess ? Results.NoContent() : Results.BadRequest(Error)`. */
  function NoContentOrBadRequest<T>(r: Result<T>): (h: Response<T>)
    ensures StatusCode(h) == 204 <==> r.Success?
    ensures r.Failure? ==> h == BadRequest(r.error)
    ensures r.Fault? ==> StatusCode(h) == 500
  {
    match r
    case Success(_) => NoContent
    case Failure(e) => BadRequest(e)
    case Fault(_) => ServerError
  }

  /** `IsSuccess ? Results.Ok() : Results.BadRequest(Error)`: success carries no body. */
  function EmptyOkOrBadRequest<T>(r: Result<T>): (h: Response<T>)
    ensures StatusCode(h) == 200 <==> r.Success?
    ensures r.Success? ==> h.body.None?
    ensures r.Failure? ==> h == BadRequest(r.error)
    ensures r.Fault? ==> StatusCode(h) == 500
  {
    match r
    case Success(_) => Ok(None)
    case Failure(e) => BadRequest(e)
    case Fault(_) => ServerError
  }

  /** `IsSuccess ? Results.Ok(Value) : Results.BadRequest(Error)`. */
  function OkOrBadRequest<T>(r: Result<T>): (h: Response<T>)
    ensures StatusCode(h) == 200 <==> r.Success?
    ensures r.Success? ==> h.body == Some(r.value)
    ensures r.Failure? ==> h == BadRequest(r.error)
    ensures r.Fault? ==> StatusCode(h) == 500
  {
    match r
    case Success(v) => Ok(Some(v))
    case Failure(e) => BadRequest(e)
    case Fault(_) => ServerError
  }

  /** `IsSuccess ? Results.Ok(Value) : Results.NotFound(Error)`: every failure is a 404. */
  function OkOrNotFound<T>(r: Result<T>): (h: Response<T>)
    ensures StatusCode(h) == 200 <==> r.Success?
    ensures r.Success? ==> h.body == Some(r.value)
    ensures r.Failure? ==> h == NotFoundResponse(r.error)
    ensures r.Fault? ==> StatusCode(h) == 500
  {
    match r
    case Success(v) => Ok(Some(v))
    case Failure(e) => NotFoundResponse(e)
    case Fault(_) => ServerError
  }
}
