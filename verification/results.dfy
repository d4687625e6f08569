/** Failure-compatible wrappers shared by the page client and the refresh
    pipeline: an optional value (for absent constructor options) and a
    result that carries either a value or one of the client's errors. */
module Results {

  /** An option field that may be omitted by the caller. */
  datatype Option<+T> = None | Some(value: T)

  /** The errors the page client and the pipeline surface.
      - InvalidArgument: construction without a password (configuration error);
      - StatusCodeError / TransportError: the HTTP round trip did not succeed
        (request errors);
      - UnexpectedBody: a page body does not have the expected line/field
        structure; MalformedJson: the embedded device payload is not a JSON
        array of flat objects (parse errors). */
  datatype PageError =
    | InvalidArgument
    | StatusCodeError(code: int)
    | TransportError
    | UnexpectedBody(path: string)
    | MalformedJson

  predicate IsRequestError(e: PageError) {
    e.StatusCodeError? || e.TransportError?
  }

  predicate IsParseError(e: PageError) {
    e.UnexpectedBody? || e.MalformedJson?
  }

  datatype Result<+T> = Ok(value: T) | Err(error: PageError) {

    predicate IsFailure() {
      Err?
    }

    function PropagateFailure<U>(): Result<U>
      requires Err?
    {
      Err(error)
    }

    function Extract(): T
      requires Ok?
    {
      value
    }
  }
}
