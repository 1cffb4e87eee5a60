/** The action results the controllers answer with, and the mappings they share. */
module Http {
  import opened Wrappers

  /** ASP.NET Core action results, by the status they carry. */
  datatype Response<T> =
    | Ok(body: T)
    | CreatedAt(id: int, created: T)
    | NoContent
    | NotFound
    | BadRequest
    | ServerError

  function StatusCode<T>(r: Response<T>): (c: int)
    ensures 200 <= c < 300 <==> r.Ok? || r.CreatedAt? || r.NoContent?
    ensures c == 404 <==> r.NotFound?
    ensures c == 400 <==> r.BadRequest?
    ensures c == 500 <==> r.ServerError?
  {
    match r
    case Ok(_) => 200
    case CreatedAt(_, _) => 201
    case NoContent => 204
    case NotFound => 404
    case BadRequest => 400
    case ServerError => 500
  }

  /** A response together with the argument of the one repository (or mediator) call the action
      made, if it made one. */
  datatype Handled<T, A> = Handled(response: Response<T>, call: Option<A>)

  /** The shape of `GetById`: a null row is 404, a row is 200 with it, an exception is 500. */
  function FromLookup<T>(reply: Reply<Option<T>>): (r: Response<T>)
    ensures r.Ok? <==> reply.Returned? && reply.value.Some?
    ensures r.Ok? ==> r.body == reply.value.value
    ensures r.NotFound? <==> reply == Returned(None)
    ensures r.ServerError? <==> reply.Threw?
  {
    match reply
    case Threw => ServerError
    case Returned(None) => NotFound
    case Returned(Some(x)) => Ok(x)
  }

  /** The shape of `Update` and `Delete` after the call: false is 404, true is 204, an exception
      is 500. */
  function FromSuccess(reply: Reply<bool>): (r: Response<()>)
    ensures r.NoContent? <==> reply == Returned(true)
    ensures r.NotFound? <==> reply == Returned(false)
    ensures r.ServerError? <==> reply.Threw?
  {
    match reply
    case Threw => ServerError
    case Returned(ok) => if ok then NoContent else NotFound
  }

  /** The shape of a listing action: 200 with the rows, or 500. */
  function FromListing<T>(reply: Reply<T>): (r: Response<T>)
    ensures r.Ok? <==> reply.Returned?
    ensures r.Ok? ==> r.body == reply.value
    ensures r.ServerError? <==> reply.Threw?
  {
    match reply
    case Threw => ServerError
    case Returned(x) => Ok(x)
  }
}
