/** The HTTP outcomes the Express route handlers produce. */
module Http {
  import opened Base

  /** One entry of the `errors` array produced by express-validator. */
  datatype FieldError = FieldError(value: Option<string>, msg: string, path: string, location: string)

  datatype Response<+T> =
    | Ok(body: T)                          // 200, JSON body
    | BadRequest(errors: seq<FieldError>)  // 400, { errors: [...] }
    | NotFound(msg: string)                // 404, { msg: ... }
    | ServerError(text: string)            // 500, plain text
    | AuthRejected                         // answered by the `auth` middleware; no handler ran

  const ServerErrorText: string := "Server Error"
  const UserNotFoundMsg: string := "User not found"
}
