/** Value wrappers shared by the model, and the closed set of ways a call
    into the EC2 API can end: a value, a transport failure (botocore's
    BotoCoreError or Python's ConnectionError), an API error carrying an
    error code (botocore's ClientError), or any other exception. */
module Outcomes {

  datatype Option<+T> = None | Some(value: T)

  datatype Result<+R, +E> = Success(value: R) | Failure(error: E)

  /** The outcome of one call; `msg` is the exception's `str(e)`. */
  datatype Outcome<+T> =
    | Ok(value: T)
    | Network(msg: string)
    | Client(code: string, msg: string)
    | Other(msg: string)
}
