/** Small shared vocabulary: optional values and the outcome of a handler. */
module Common {

  /** A value that may be absent; `None` stands for SQL NULL or "no row". */
  datatype Option<T> = None | Some(value: T)

  /** Why a handler refused and left every table as it was. */
  datatype Refusal =
    | MissingCredentials   // empty username or password
    | DuplicateUsername    // a user with that username already exists
    | InvalidCredentials   // no user row matches both username and password
    | ActiveSessionExists  // the user already has a session without an end time
    | NoActiveSession      // the user has no session without an end time
    | InvalidDateTime      // the date or a clock time of the form does not parse
    | ConstraintViolation  // an INSERT broke a NOT NULL or CHECK constraint; nothing is committed

  /** The outcome of a handler: done with a result, or refused with no change. */
  datatype Outcome<T> = Done(value: T) | Refused(reason: Refusal)
}
