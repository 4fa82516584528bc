/**
 * `POST` of src/app/api/profile/update-image/route.ts: validates an uploaded
 * profile image, turns it into a base64 data URL and stores that URL as the
 * caller's `image`.
 */
module UpdateImageRoute {
  import opened Values
  import opened Store
  import opened Session
  import opened Http
  import opened UploadRules
  import DataUrl

  const MaxBytes: nat := 2 * MiB
  const TooLargeMessage: string := "File too large (max 2MB)"

  /** `user.update({where: {id}, data: {image}})` on the row sequence. */
  function SetImage(users: seq<User>, id: Id, image: string): (r: seq<User>)
    ensures |r| == |users|
    ensures forall k :: 0 <= k < |users| && users[k].id == id ==> r[k] == users[k].(image := Some(image))
    ensures forall k :: 0 <= k < |users| && users[k].id != id ==> r[k] == users[k]
  {
    seq(|users|, k requires 0 <= k < |users| => if users[k].id == id then users[k].(image := Some(image)) else users[k])
  }

  /** The handler; its one store call is the update. */
  function Post(s: Store, session: Option<Session>, file: Option<File>, fault: Fault): (r: (Store, Reply<string>))
    // the checks, in order
    ensures !HasIdKey(session) ==> r == (s, Error(401, Unauthorized))
    ensures HasIdKey(session) && file.None? ==> r == (s, Error(400, NoFile))
    ensures HasIdKey(session) && file.Some? && file.value.Size() > MaxBytes ==> r == (s, Error(400, TooLargeMessage))
    ensures HasIdKey(session) && file.Some? && Screen(file.value, MaxBytes) == NotImage ==> r == (s, Error(400, NotAnImage))
    // an accepted file is stored as its data URL, on the caller's row only
    ensures r.1.Ok? <==> HasIdKey(session) && file.Some? && Screen(file.value, MaxBytes) == Accepted
                         && !FailsAt(fault, 1) && HasUser(s, UserId(session))
    ensures r.1.Ok? ==> r.1.body == DataUrl.Build(file.value.mimeType, file.value.bytes)
    ensures r.1.Ok? ==> r.0 == s.(users := r.0.users) && |r.0.users| == |s.users|
    ensures r.1.Ok? ==> forall k :: 0 <= k < |s.users| ==>
              r.0.users[k] == if s.users[k].id == UserId(session) then s.users[k].(image := Some(r.1.body)) else s.users[k]
    // a failing update is a 500 and writes nothing
    ensures r.1.Error? ==> r.0 == s
    ensures HasIdKey(session) && file.Some? && Screen(file.value, MaxBytes) == Accepted
            && (FailsAt(fault, 1) || !HasUser(s, UserId(session))) ==>
              r == (s, Error(500, if FailsAt(fault, 1) then fault.message else RecordNotFound))
    ensures r.1.Error? && r.1.status == 500 ==> r.1.error == (if FailsAt(fault, 1) then fault.message else RecordNotFound)
    ensures Valid(s) ==> Valid(r.0)
  {
    if !HasIdKey(session) then (s, Error(401, Unauthorized))
    else if file.None? then (s, Error(400, NoFile))
    else
      var f := file.value;
      match Screen(f, MaxBytes)
      case TooLarge => (s, Error(400, TooLargeMessage))
      case NotImage => (s, Error(400, NotAnImage))
      case Accepted =>
        var url := DataUrl.Build(f.mimeType, f.bytes);
        var id := UserId(session);
        if FailsAt(fault, 1) then (s, Error(500, fault.message))
        else if !HasUser(s, id) then (s, Error(500, RecordNotFound))
        else
          var s' := s.(users := SetImage(s.users, id, url));
          assert forall k :: 0 <= k < |s.posts| ==> HasUser(s, s.posts[k].userId) ==> HasUser(s', s.posts[k].userId);
          (s', Ok(url))
  }

  /** The stored image carries the uploaded bytes and type: reading the data
      URL back gives both. */
  lemma StoredImageRoundTrip(s: Store, session: Option<Session>, file: Option<File>, fault: Fault)
    requires Post(s, session, file, fault).1.Ok?
    ensures DataUrl.Parse(Post(s, session, file, fault).1.body) == Some((file.value.mimeType, file.value.bytes))
  {
    DataUrl.ParseBuild(file.value.mimeType, file.value.bytes);
  }
}
