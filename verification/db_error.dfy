/** The older store error used by the category and user store functions
    (`Error::{Connection, Database, NotFound}`), and its correspondence with
    the internal `ErrorKind` that the rest of the controller uses. */
module DbError {
  import Errors

  datatype Error = Connection | Database | NotFound

  /** Each older error names the same failure as one internal kind. */
  function ToKind(e: Error): (k: Errors.ErrorKind)
    ensures k != Errors.ServerError
    ensures k == Errors.ContentNotFound <==> e == NotFound
    ensures k == Errors.ConnectionError <==> e == Connection
  {
    match e
    case Connection => Errors.ConnectionError
    case Database => Errors.QueryError
    case NotFound => Errors.ContentNotFound
  }

  /** The response a service sends for an older store error: the same
      translation as for the internal error of the corresponding kind. */
  function ToResponse(e: Error): (r: Errors.ResponseError)
    ensures r == Errors.ContentRequestError(Errors.MissingContent) <==> e == NotFound
    ensures e != NotFound ==> r == Errors.InternalServerError
  {
    Errors.ToResponse(Errors.FromKind(ToKind(e)))
  }

  /** The correspondence loses nothing: distinct older errors map to
      distinct kinds. */
  lemma ToKindInjective(a: Error, b: Error)
    requires ToKind(a) == ToKind(b)
    ensures a == b
  {
  }
}
