/** Result shapes shared by the social-media API and the library app. */
module Outcomes {

  /** A value that may be absent (Python's None). */
  datatype Option<+T> = None | Some(value: T) {
    function GetOr(default: T): T {
      match this
      case Some(v) => v
      case None => default
    }
  }

  /** The value a Python function returns, or the exception it lets escape. */
  datatype Result<+T> = Value(value: T) | Raised(error: string)

  /** The status of a REST response, with the `detail` text where the view sets one. */
  datatype Status =
    | Ok(detail: string)            // 200
    | Created                       // 201
    | NoContent                     // 204
    | BadRequest(detail: string)    // 400 with a `detail` message
    | Invalid(fields: set<string>)  // 400 with the names of the fields that failed validation
    | NotAuthenticated              // 401: IsAuthenticated refused an anonymous request
    | Forbidden                     // 403
    | NotFound                      // 404
}
