/**
 * The edit-profile dialog of src/components/EditProfileModal.tsx: picking
 * an image screens it on the client, and saving uploads the picked image
 * to the update-image route and then sends the bio to `updateProfile`.
 * The two server calls are composed here with their own models, so a save
 * is one step from store to store.
 */
module EditProfileModal {
  import opened Values
  import opened Text
  import opened Store
  import opened Session
  import opened Http
  import opened UploadRules
  import UpdateImageRoute
  import ProfileActions
  import DataUrl

  const ImageLimit: nat := 2 * 1024 * 1024
  const TooLargeText: string := "Obrázok je príliš veľký. Maximálna veľkosť je 2MB."
  const NotImageText: string := "Prosím, vyberte obrázok."
  const UploadFailedText: string := "Nepodarilo sa nahrať obrázok"
  const UpdateFailedText: string := "Nepodarilo sa aktualizovať profil"
  const UploadStatusPrefix: string := "Upload failed with status: "

  /** The dialog's state; the image preview is left out. */
  datatype Modal = Modal(bio: string, imageFile: Option<File>, loading: bool, error: Option<string>)

  /** The state a freshly mounted dialog starts in: `currentBio || ''`. */
  function Open(currentBio: Option<string>): (m: Modal)
    ensures Present(currentBio) ==> m.bio == currentBio.value
    ensures !Present(currentBio) ==> m.bio == ""
    ensures m.imageFile.None? && !m.loading && m.error.None?
  {
    Modal(if currentBio.Some? then currentBio.value else "", None, false, None)
  }

  /** `handleImageChange`: no file leaves the state alone; a file over 2 MB
      or without an `image/` type only sets the error; otherwise the file is
      kept and the error cleared. */
  function HandleImageChange(m: Modal, picked: Option<File>): (m': Modal)
    ensures picked.None? ==> m' == m
    ensures picked.Some? && Screen(picked.value, ImageLimit) == Accepted ==> m' == m.(imageFile := picked, error := None)
    ensures picked.Some? && Screen(picked.value, ImageLimit) == TooLarge ==> m' == m.(error := Some(TooLargeText))
    ensures picked.Some? && Screen(picked.value, ImageLimit) == NotImage ==> m' == m.(error := Some(NotImageText))
  {
    if picked.None? then m
    else
      var f := picked.value;
      if |f.bytes| > 2 * 1024 * 1024 then m.(error := Some(TooLargeText))
      else if !StartsWith(f.mimeType, "image/") then m.(error := Some(NotImageText))
      else m.(imageFile := Some(f), error := None)
  }

  /** The dialog keeps exactly the files the update-image route accepts, and
      refuses the others for the same reason the route would. */
  lemma DialogScreensLikeRoute(m: Modal, f: File)
    ensures HandleImageChange(m, Some(f)).imageFile == Some(f) && HandleImageChange(m, Some(f)).error.None?
            <==> Screen(f, UpdateImageRoute.MaxBytes) == Accepted
    ensures HandleImageChange(m, Some(f)).error == Some(TooLargeText)
            <==> Screen(f, UpdateImageRoute.MaxBytes) == TooLarge
  {
  }

  /** The message the upload step throws for a reply. */
  function UploadError(reply: Reply<string>): (e: Option<string>)
    ensures e.None? <==> reply.Ok? && reply.body != ""
    ensures reply.Error? && reply.error != "" ==> e == Some(reply.error)
    ensures reply.Error? && reply.error == "" ==> e == Some(UploadStatusPrefix + Decimal(reply.status))
    ensures reply.Ok? && reply.body == "" ==> e == Some(UploadFailedText)
    ensures e.Some? ==> e.value != ""
  {
    if reply.Error? then Some(if reply.error != "" then reply.error else UploadStatusPrefix + Decimal(reply.status))
    else if reply.body == "" then Some(UploadFailedText)
    else None
  }

  /** The image step of `handleSubmit`: the store after it and the message it
      throws, if any. Without a picked file nothing is sent. */
  function UploadStep(s: Store, session: Option<Session>, imageFile: Option<File>, fault: Fault)
    : (r: (Store, Option<string>))
    requires HasIdKey(session)
    ensures imageFile.None? ==> r == (s, None)
    ensures imageFile.Some? ==>
              r.0 == UpdateImageRoute.Post(s, session, imageFile, fault).0 &&
              (r.1.None? <==> UpdateImageRoute.Post(s, session, imageFile, fault).1.Ok?)
    ensures r.1.Some? ==> r.0 == s && r.1.value != ""
    ensures imageFile.Some? ==> r.1 == UploadError(UpdateImageRoute.Post(s, session, imageFile, fault).1)
  {
    if imageFile.None? then (s, None)
    else
      var (s', reply) := UpdateImageRoute.Post(s, session, imageFile, fault);
      (s', UploadError(reply))
  }

  /** The data `handleSubmit` sends: `{ bio }`, with location and interests
      undefined. */
  function BioOnly(bio: string): (d: ProfileActions.ProfileUpdate)
    ensures d.bio == Str(bio) && d.location == Undefined && d.interests.None?
  {
    ProfileActions.ProfileUpdate(Str(bio), Undefined, None)
  }

  /** `handleSubmit`: the store after the save, the dialog state after it,
      and whether the dialog was closed. The guard returns before anything
      when the session user has no `id` key. */
  function HandleSubmit(s: Store, m: Modal, session: Option<Session>, uploadFault: Fault, profileFault: Fault)
    : (r: (Store, Modal, bool))
    ensures !HasIdKey(session) ==> r == (s, m, false)
    ensures HasIdKey(session) ==> !r.1.loading && r.1.bio == m.bio && r.1.imageFile == m.imageFile
    ensures |r.0.users| == |s.users|
    // closed exactly when both calls succeed, and then no error is shown
    ensures r.2 <==> HasIdKey(session) &&
                     (m.imageFile.None? || UpdateImageRoute.Post(s, session, m.imageFile, uploadFault).1.Ok?) &&
                     !FailsAt(profileFault, 1) && !FailsAt(profileFault, 2) &&
                     (UserId(session) in s.profiles || HasUser(s, UserId(session)))
    ensures r.2 ==> r.1.error.None? && UserId(session) in r.0.profiles
    ensures HasIdKey(session) && !r.2 ==> r.1.error.Some? && r.1.error.value != ""
    // a failed upload leaves the store alone and skips the profile update
    ensures HasIdKey(session) && m.imageFile.Some? && UpdateImageRoute.Post(s, session, m.imageFile, uploadFault).1.Error? ==>
              r.0 == s
    // a save writes the bio only: location and interests are kept
    ensures r.2 && m.bio != "" ==> UserId(session) in r.0.profiles && r.0.profiles[UserId(session)].bio == Some(m.bio)
    ensures r.2 && UserId(session) in s.profiles ==>
              r.0.profiles[UserId(session)].location == s.profiles[UserId(session)].location &&
              r.0.profiles[UserId(session)].interests == s.profiles[UserId(session)].interests
    // a saved image lands on the caller's row
    ensures r.2 && m.imageFile.Some? ==> forall k :: 0 <= k < |s.users| && s.users[k].id == UserId(session) ==>
              r.0.users[k].image == Some(DataUrl.Build(m.imageFile.value.mimeType, m.imageFile.value.bytes))
    // the profile update runs on the store the upload left, sending the bio only
    ensures HasIdKey(session) && (m.imageFile.None? || UpdateImageRoute.Post(s, session, m.imageFile, uploadFault).1.Ok?) ==>
              r.0 == ProfileActions.UpdateProfile(UploadStep(s, session, m.imageFile, uploadFault).0, session, UserId(session),
                                                  BioOnly(m.bio), profileFault).0
    // the message shown is the upload's, else the profile update's or the fixed text
    ensures HasIdKey(session) && UploadStep(s, session, m.imageFile, uploadFault).1.Some? ==>
              r.1.error == UploadStep(s, session, m.imageFile, uploadFault).1
    ensures HasIdKey(session) && UploadStep(s, session, m.imageFile, uploadFault).1.None? && !r.2 ==>
              var e := ProfileActions.UpdateProfile(UploadStep(s, session, m.imageFile, uploadFault).0, session, UserId(session),
                                                    BioOnly(m.bio), profileFault).1.error;
              r.1.error == Some(if e != "" then e else UpdateFailedText)
    // posts, likes, saved posts and other users' profiles are never touched
    ensures r.0.posts == s.posts && r.0.likes == s.likes && r.0.saved == s.saved
    ensures HasIdKey(session) ==> forall id :: id != UserId(session) ==>
              (id in r.0.profiles <==> id in s.profiles) && (id in s.profiles ==> r.0.profiles[id] == s.profiles[id])
    // only the caller's rows change, and only their image, and only by an upload
    ensures HasIdKey(session) ==> forall k :: 0 <= k < |s.users| && s.users[k].id != UserId(session) ==> r.0.users[k] == s.users[k]
    ensures m.imageFile.None? ==> r.0.users == s.users
    ensures HasIdKey(session) && m.imageFile.Some? && UpdateImageRoute.Post(s, session, m.imageFile, uploadFault).1.Ok? ==>
              forall k :: 0 <= k < |s.users| && s.users[k].id == UserId(session) ==>
                r.0.users[k] == s.users[k].(image := Some(DataUrl.Build(m.imageFile.value.mimeType, m.imageFile.value.bytes)))
    // a failed profile update after a good upload keeps the image and leaves the profiles alone
    ensures HasIdKey(session) && UploadStep(s, session, m.imageFile, uploadFault).1.None? && !r.2 ==> r.0.profiles == s.profiles
  {
    if !HasIdKey(session) then (s, m, false)
    else
      var id := UserId(session);
      var (s1, uploadError) := UploadStep(s, session, m.imageFile, uploadFault);
      if uploadError.Some? then (s1, m.(loading := false, error := uploadError), false)
      else
        var (s2, result) := ProfileActions.UpdateProfile(s1, session, id, BioOnly(m.bio), profileFault);
        if result.Answered? then (s2, m.(loading := false, error := None), true)
        else (s2, m.(loading := false, error := Some(if result.error != "" then result.error else UpdateFailedText)), false)
  }

  /** A file the dialog takes without an error is saved for a signed-in user who exists when
      neither server call fails, and the stored image reads back as that
      file. */
  lemma PickedImageIsSaved(s: Store, m: Modal, f: File, session: Option<Session>)
    requires HandleImageChange(m, Some(f)).error.None?
    requires HasIdKey(session) && HasUser(s, UserId(session))
    ensures var r := HandleSubmit(s, HandleImageChange(m, Some(f)), session, NoFault, NoFault);
            r.2 && forall k :: 0 <= k < |s.users| && s.users[k].id == UserId(session) ==>
              r.0.users[k].image.Some? && DataUrl.Parse(r.0.users[k].image.value) == Some((f.mimeType, f.bytes))
  {
    var m' := HandleImageChange(m, Some(f));
    DialogScreensLikeRoute(m, f);
    assert Screen(f, UpdateImageRoute.MaxBytes) == Accepted;
    assert UpdateImageRoute.Post(s, session, Some(f), NoFault).1.Ok?;
    DataUrl.ParseBuild(f.mimeType, f.bytes);
  }
}
