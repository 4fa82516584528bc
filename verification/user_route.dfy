/**
 * `GET` of src/app/api/user/route.ts: looks a user up by the `email` query
 * parameter and returns only the public fields. It only reads the store.
 */
module UserRoute {
  import opened Values
  import opened Store
  import opened Http

  const EmailRequired: string := "Email is required"
  const InternalError: string := "Internal server error"

  /** `select: {id, name, email, image}`. */
  datatype PublicUser = PublicUser(id: Id, name: Option<string>, email: Option<string>, image: Option<string>)

  function Project(u: User): (p: PublicUser)
    ensures p.id == u.id && p.name == u.name && p.email == u.email && p.image == u.image
  {
    PublicUser(u.id, u.name, u.email, u.image)
  }

  /** Under unique emails, a row with an email is the only row with it. */
  lemma EmailIdentifiesUser(users: seq<User>, u: User)
    requires u in users && u.email.Some?
    ensures UniqueEmails(users) ==> forall v :: v in users && v.email == u.email ==> v == u
  {
    if UniqueEmails(users) {
      forall v | v in users && v.email == u.email ensures v == u {
        var i :| 0 <= i < |users| && users[i] == u;
        var j :| 0 <= j < |users| && users[j] == v;
      }
    }
  }

  /** The handler; its one store call is the lookup by email. */
  function Get(s: Store, email: Option<string>, fault: Fault): (r: Reply<PublicUser>)
    ensures !Present(email) ==> r == Error(400, EmailRequired)
    ensures Present(email) && FailsAt(fault, 1) ==> r == Error(500, InternalError)
    ensures (Present(email) && !FailsAt(fault, 1) && forall k :: 0 <= k < |s.users| ==> s.users[k].email != email)
              ==> r == Error(404, UserNotFound)
    ensures r.Ok? <==> Present(email) && !FailsAt(fault, 1) && exists k :: 0 <= k < |s.users| && s.users[k].email == email
    ensures r.Ok? ==> exists u :: u in s.users && u.email == email && r.body == Project(u)
    // emails are unique, so the answer is the one user with that email
    ensures r.Ok? && UniqueEmails(s.users) ==> forall u :: u in s.users && u.email == email ==> r.body == Project(u)
  {
    if !Present(email) then Error(400, EmailRequired)
    else if FailsAt(fault, 1) then Error(500, InternalError)
    else
      match FindUserByEmail(s.users, email.value)
      case None => Error(404, UserNotFound)
      case Some(u) =>
        EmailIdentifiesUser(s.users, u);
        Ok(Project(u))
  }
}
