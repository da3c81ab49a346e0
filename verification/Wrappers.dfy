/** The types shared by the other modules. */
module Wrappers {
  datatype Option<+T> = None | Some(value: T)

  /** Microseconds since the Unix epoch, the resolution of a PostgreSQL timestamp. */
  type Time = int

  /** The status a handler answers with. Crashed: it panicked, and no status was written. */
  datatype Status =
    | OK200
    | Created201
    | BadRequest400
    | Unauthorized401
    | Forbidden403
    | NotFound404
    | Internal500
    | Crashed

  /** The fate of a store call. A failing write outside a transaction, or a failing commit, may still
      have taken effect: it fails late. */
  datatype Fault = NoFault | Fails | FailsLate
}
