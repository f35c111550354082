/** Values that cross the boundary to the hosted backend. Every backend call of the
    app resolves to a `{ data, error }` pair; the model receives that pair as an
    `Outcome` input instead of performing the call. */
module Gateway {

  /** JavaScript's `null`/`undefined` versus a present value. */
  datatype Option<+T> = None | Some(value: T)

  /** A backend reply: either the data, or an error carrying its message. */
  datatype Outcome<+T> = Ok(value: T) | Err(message: string)

  /** The authenticated user attached to a session. */
  datatype User = User(id: string, email: string)

  /** An authentication session; the backend may hand back one without a user. */
  datatype Session = Session(accessToken: string, refreshToken: string, user: Option<User>)
}
