/**
 * `POST` of src/app/api/upload/route.ts: the same validation chain as the
 * profile-image route with a 5MB cap and a weaker session check, then
 * either a fixed placeholder URL (no cloud account configured) or the
 * cloud service's answer. The cloud call itself is an input here.
 */
module UploadRoute {
  import opened Values
  import opened Session
  import opened Http
  import opened UploadRules

  const MaxBytes: nat := 5 * MiB
  const TooLargeMessage: string := "File too large (max 5MB)"
  const PlaceholderUrl: string := "https://via.placeholder.com/150"
  const CloudFailed: string := "Failed to upload image"

  /** What the image service answered: a stored image's `secure_url`, or a
      non-OK response. */
  datatype CloudReply = CloudStored(secureUrl: string) | CloudRefused

  /** `session && session.user`: no `id` is needed here. */
  predicate SignedIn(session: Option<Session>) {
    session.Some? && session.value.user.Some?
  }

  function Post(session: Option<Session>, file: Option<File>, cloudName: Option<string>, cloud: CloudReply)
    : (r: Reply<string>)
    ensures !SignedIn(session) ==> r == Error(401, Unauthorized)
    ensures SignedIn(session) && file.None? ==> r == Error(400, NoFile)
    ensures SignedIn(session) && file.Some? && file.value.Size() > MaxBytes ==> r == Error(400, TooLargeMessage)
    ensures SignedIn(session) && file.Some? && Screen(file.value, MaxBytes) == NotImage ==> r == Error(400, NotAnImage)
    ensures r.Ok? ==> SignedIn(session) && file.Some? && Screen(file.value, MaxBytes) == Accepted
    ensures r.Ok? && !Present(cloudName) ==> r.body == PlaceholderUrl
    ensures r.Ok? && Present(cloudName) ==> cloud == CloudStored(r.body)
    ensures SignedIn(session) && file.Some? && Screen(file.value, MaxBytes) == Accepted && !Present(cloudName) ==>
              r == Ok(PlaceholderUrl)
    ensures (SignedIn(session) && file.Some? && Screen(file.value, MaxBytes) == Accepted && Present(cloudName)
             && cloud == CloudRefused) ==> r == Error(500, CloudFailed)
    ensures (SignedIn(session) && file.Some? && Screen(file.value, MaxBytes) == Accepted && Present(cloudName)
             && cloud.CloudStored?) ==> r == Ok(cloud.secureUrl)
  {
    if !SignedIn(session) then Error(401, Unauthorized)
    else if file.None? then Error(400, NoFile)
    else
      match Screen(file.value, MaxBytes)
      case TooLarge => Error(400, TooLargeMessage)
      case NotImage => Error(400, NotAnImage)
      case Accepted =>
        if !Present(cloudName) then Ok(PlaceholderUrl)
        else match cloud
          case CloudRefused => Error(500, CloudFailed)
          case CloudStored(url) => Ok(url)
  }

  /** A session whose user lacks an `id` is refused by the profile-image
      route but accepted here. */
  lemma IdNotRequired(user: SessionUser, file: File, cloud: CloudReply)
    requires user.id.None?
    requires Screen(file, MaxBytes) == Accepted
    ensures Post(Some(Session(Some(user))), Some(file), None, cloud) == Ok(PlaceholderUrl)
    ensures !HasIdKey(Some(Session(Some(user))))
  {
  }
}
