/**
 * `GET` of src/app/api/profile/check-image/route.ts: reports the caller's
 * stored image, whether it is an inline image data URL, and whether it is
 * the image the session carries. It only reads the store.
 */
module CheckImageRoute {
  import opened Values
  import opened Text
  import opened Store
  import opened Session
  import opened Http
  import UpdateImageRoute
  import UploadRules

  /** `isBase64` is `None` when the stored image is null (the key is then
      `undefined` and left out of the JSON). */
  datatype ImageCheck = ImageCheck(image: Option<string>, isBase64: Option<bool>, sessionImage: JsString, imageMatch: bool)

  const DataImagePrefix: string := "data:image/"

  /** `user.image?.startsWith('data:image/')`. */
  function IsBase64(image: Option<string>): (r: Option<bool>)
    ensures r.None? <==> image.None?
    ensures r == Some(true) <==> image.Some? && StartsWith(image.value, DataImagePrefix)
  {
    match image
    case None => None
    case Some(url) => Some(StartsWith(url, DataImagePrefix))
  }

  /** The handler; its one store call finds the caller's row. */
  function Get(s: Store, session: Option<Session>, fault: Fault): (r: Reply<ImageCheck>)
    ensures !HasTruthyId(session) ==> r == Error(401, Unauthorized)
    ensures HasTruthyId(session) && FailsAt(fault, 1) ==> r == Error(500, fault.message)
    ensures HasTruthyId(session) && !FailsAt(fault, 1) && !HasUser(s, UserId(session)) ==> r == Error(404, UserNotFound)
    ensures r.Ok? <==> HasTruthyId(session) && !FailsAt(fault, 1) && HasUser(s, UserId(session))
    ensures r.Ok? ==> exists u :: u in s.users && u.id == UserId(session) && r.body.image == u.image
    ensures r.Ok? ==> r.body.isBase64 == IsBase64(r.body.image)
    ensures r.Ok? ==> (r.body.isBase64 == Some(true) <==> r.body.image.Some? && StartsWith(r.body.image.value, DataImagePrefix))
    // a null column is never `===` to a missing session image
    ensures r.Ok? ==> (r.body.imageMatch <==> FromColumn(r.body.image) == session.value.user.value.image)
    ensures r.Ok? ==> r.body.sessionImage == session.value.user.value.image
  {
    if !HasTruthyId(session) then Error(401, Unauthorized)
    else if FailsAt(fault, 1) then Error(500, fault.message)
    else
      match FindUser(s.users, UserId(session))
      case None => Error(404, UserNotFound)
      case Some(u) =>
        var sessionImage := session.value.user.value.image;
        Ok(ImageCheck(u.image, IsBase64(u.image), sessionImage, FromColumn(u.image) == sessionImage))
  }

  /** An image stored by the profile-image route is reported as an inline
      image by this route, for any caller with a non-empty id. */
  lemma StoredImageIsBase64(s: Store, session: Option<Session>, file: Option<UploadRules.File>, fault: Fault)
    requires HasTruthyId(session)
    requires UpdateImageRoute.Post(s, session, file, fault).1.Ok?
    ensures var (s', reply) := UpdateImageRoute.Post(s, session, file, fault);
            var r := Get(s', session, NoFault);
            r.Ok? && r.body.image == Some(reply.body) && r.body.isBase64 == Some(true)
  {
    var (s', reply) := UpdateImageRoute.Post(s, session, file, fault);
    var id := UserId(session);
    var k :| 0 <= k < |s.users| && s.users[k].id == id;
    assert s'.users[k].id == id;
    forall u | u in s'.users && u.id == id ensures u.image == Some(reply.body) {
      var j :| 0 <= j < |s'.users| && s'.users[j] == u;
      assert s.users[j].id == id;
    }
    assert StartsWith(reply.body, DataImagePrefix);
  }
}
