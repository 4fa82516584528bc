/**
 * The authenticated session as the server routes and components receive it.
 * The session itself, its `user`, and the `id` key on the user may each be
 * missing; `name`, `email` and `image` may also be null.
 */
module Session {
  import opened Values

  /** `id` is `None` when the key is absent from the user object. */
  datatype SessionUser = SessionUser(id: Option<string>, name: JsString, email: JsString, image: JsString)

  datatype Session = Session(user: Option<SessionUser>)

  /** The refusal every server entry point gives a missing or foreign session. */
  const Unauthorized: string := "Unauthorized"

  /** `session && session.user && 'id' in session.user`. */
  predicate HasIdKey(session: Option<Session>) {
    session.Some? && session.value.user.Some? && session.value.user.value.id.Some?
  }

  /** `session && session.user && session.user.id`: the id is also non-empty. */
  predicate HasTruthyId(session: Option<Session>) {
    HasIdKey(session) && session.value.user.value.id.value != ""
  }

  /** The user id of a session that has one. */
  function UserId(session: Option<Session>): (id: string)
    requires HasIdKey(session)
  {
    session.value.user.value.id.value
  }
}
