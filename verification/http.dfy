/** The request/response frame shared by every route handler: the caller's
    session, the status codes the handlers use, and a handler's outcome. */
module Http {
  import opened Wrappers
  import opened Documents

  /** The authenticated caller, as the identity provider reports it. */
  datatype Session = Session(userId: Id)

  /** `!session` fails: the routes that check only for a session. */
  predicate SignedIn(session: Option<Session>) {
    session.Some?
  }

  /** `!session?.user?.id` fails: the routes that also need a non-empty user id. */
  predicate HasUserId(session: Option<Session>) {
    session.Some? && session.value.userId != ""
  }

  /** A request field holding a JavaScript-truthy string: present and non-empty. */
  predicate Truthy(field: Option<string>) {
    field.Some? && field.value != ""
  }

  /** A string field with the JavaScript fallback `field || default`. */
  function OrElse(field: Option<string>, default: string): (r: string)
    ensures Truthy(field) ==> r == field.value
    ensures !Truthy(field) ==> r == default
  {
    if Truthy(field) then field.value else default
  }

  /** The picture path replies show for a user without a truthy `profilePicture`. */
  const PLACEHOLDER_PICTURE: string := "/placeholder.svg?height=40&width=40"

  const OK: int := 200
  const CREATED: int := 201
  const BAD_REQUEST: int := 400
  const UNAUTHORIZED: int := 401
  const NOT_FOUND: int := 404
  const SERVER_ERROR: int := 500

  /** A JSON reply: a body with a success status, or an error message with an
      error status. */
  datatype Response<+T> = Success(status: int, body: T) | Failure(status: int, message: string)

  /** What a writing handler returns: its reply and the store after it ran. */
  datatype Handled<+T> = Handled(response: Response<T>, store: Store)
}
