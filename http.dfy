/** The HTTP results and exceptions the Spring controllers produce. */
module Http {
  import opened Wrappers

  /** The statuses the controllers answer with: 200, 400, 403 and 404. */
  datatype Status = Ok | BadRequest | Forbidden | NotFound

  /** `ResponseEntity<T>`: a status and an optional body. */
  datatype ResponseEntity<T> = ResponseEntity(status: Status, body: Option<T>)

  /** The exceptions that escape a controller method. */
  datatype ServerError =
    | UsernameNotFound(message: string)  // `UsernameNotFoundException`
    | BadCredentials                     // the authentication manager rejected the login
}
