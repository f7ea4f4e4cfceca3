/** Values shared by every part of the Whiskr model: optional values (JavaScript's
    null/undefined), row identifiers, timestamps and the shape of an HTTP reply. */
module Common {

  /** An absent value (null or undefined in a request body or in storage) or a present one. */
  datatype Option<+T> = None | Some(value: T)

  /** Row identifiers. The database hands out fresh ones (gen_random_uuid); here a counter does. */
  type Id = nat

  /** The value of now() when a statement runs. */
  type Time = nat

  /** JavaScript truthiness of a string that may be absent: null, undefined and "" are falsy. */
  predicate Truthy(s: Option<string>)
  {
    s.Some? && s.value != ""
  }

  /** Why the database refused a statement; a refused statement changes nothing.
      `NumericOutOfRange` is raised while binding a parameter, before any row is looked at. */
  datatype DbError =
    | NumericOutOfRange
    | NotNullViolation
    | CheckViolation
    | UniqueViolation
    | ForeignKeyViolation

  /** What a route handler does with its response:
      `Sent`      — res.status(status).json(body) with a value,
      `Rejected`  — res.status(status).json({ error }),
      `Forwarded` — next(err): the database error is handed to the application's error handler. */
  datatype Reply<+T> =
    | Sent(status: int, body: T)
    | Rejected(status: int, error: string)
    | Forwarded(cause: DbError)
}
