/** The internal error of the controller (`ErrorKind` and `Error`) and its
    translation into the error a client receives. */
module Errors {

  /** What went wrong inside the controller. */
  datatype ErrorKind = ConnectionError | QueryError | ContentNotFound | ServerError

  /** `failure::Context<ErrorKind>`: the kind attached to a failure. The
      underlying library error and backtrace it may carry are not modelled. */
  datatype Context = Context(kind: ErrorKind)

  /** The internal error: a context whose kind can be queried. */
  datatype Error = Error(inner: Context)

  /** The error detail a client can see in a content response. */
  datatype ContentError = MissingContent

  /** The error a client receives over RPC. */
  datatype ResponseError = InternalServerError | ContentRequestError(content: ContentError)

  function Kind(e: Error): ErrorKind {
    e.inner.kind
  }

  /** `Error::from(kind)`: an error raised directly. Asking it for its
      kind gives back the kind it was built from. */
  function FromKind(kind: ErrorKind): (e: Error)
    ensures Kind(e) == kind
  {
    Error(Context(kind))
  }

  /** `Error::from(context)`: wrapping keeps the context as it is. */
  function FromContext(c: Context): (e: Error)
    ensures Kind(e) == c.kind
    ensures e.inner == c
  {
    Error(c)
  }

  /** `Into<ResponseError> for Error`: only a missing row is reported as
      such; every other kind is hidden behind an internal server error. */
  function ToResponse(e: Error): (r: ResponseError)
    ensures r == ContentRequestError(MissingContent) <==> Kind(e) == ContentNotFound
    ensures r != ContentRequestError(MissingContent) ==> r == InternalServerError
  {
    match Kind(e)
    case ConnectionError => InternalServerError
    case QueryError => InternalServerError
    case ContentNotFound => ContentRequestError(MissingContent)
    case ServerError => InternalServerError
  }

  /** Raising a kind directly and attaching it as a context give the same
      error; the doc example's `ConnectionError` is one instance. */
  lemma KindRoundTrip(k: ErrorKind)
    ensures FromKind(k) == FromContext(Context(k))
    ensures Kind(FromKind(k)) == k
    ensures Kind(FromKind(ConnectionError)) == ConnectionError
  {
  }

  /** The internal kinds that become an internal server error are exactly
      the three that are not `ContentNotFound`. */
  lemma InternalKinds(k: ErrorKind)
    ensures ToResponse(FromKind(k)) == InternalServerError
        <==> k in {ConnectionError, QueryError, ServerError}
  {
  }
}
