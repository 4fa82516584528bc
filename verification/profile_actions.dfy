/**
 * `updateProfile` of src/app/actions/profile.ts: an authorization gate, then
 * either a field-by-field merge into the existing profile or the creation
 * of a new one with defaults.
 */
module ProfileActions {
  import opened Values
  import opened Store
  import opened Session

  /** `{bio?, location?, interests?}`; `interests` is `None` when undefined. */
  datatype ProfileUpdate = ProfileUpdate(bio: JsString, location: JsString, interests: Option<seq<string>>)

  const UpdateFailedPrefix: string := "Failed to update profile: "
  /** The message of the TypeError raised by `session.user.id` when the
      session has no user. */
  const NoSessionUser: string := "Cannot read properties of undefined (reading 'id')"

  /** A string-or-null value stored into a nullable column. */
  function Column(v: JsString): (c: Option<string>)
    requires v != Undefined
    ensures c.None? <==> v == Null
    ensures v.Str? ==> c == Some(v.text)
  {
    if v.Str? then Some(v.text) else None
  }

  /** The update path: a provided value replaces the stored one (null
      included), an undefined one keeps it. */
  function Merge(existing: Profile, data: ProfileUpdate): (p: Profile)
    ensures data.bio == Undefined ==> p.bio == existing.bio
    ensures data.bio == Null ==> p.bio.None?
    ensures data.bio.Str? ==> p.bio == Some(data.bio.text)
    ensures data.location == Undefined ==> p.location == existing.location
    ensures data.location == Null ==> p.location.None?
    ensures data.location.Str? ==> p.location == Some(data.location.text)
    ensures data.interests.None? ==> p.interests == existing.interests
    ensures data.interests.Some? ==> p.interests == data.interests.value
  {
    Profile(
      if data.bio != Undefined then Column(data.bio) else existing.bio,
      if data.location != Undefined then Column(data.location) else existing.location,
      if data.interests.Some? then data.interests.value else existing.interests)
  }

  /** The create path: `|| null` for bio and location, `|| []` for interests. */
  function Fresh(data: ProfileUpdate): (p: Profile)
    ensures p.bio.Some? <==> Truthy(data.bio)
    ensures Truthy(data.bio) ==> p.bio == Some(data.bio.text)
    ensures p.location.Some? <==> Truthy(data.location)
    ensures Truthy(data.location) ==> p.location == Some(data.location.text)
    ensures data.interests.None? ==> p.interests == []
    ensures data.interests.Some? ==> p.interests == data.interests.value
  {
    Profile(OrNull(data.bio), OrNull(data.location), if data.interests.Some? then data.interests.value else [])
  }

  /** `!session || session.user.id !== userId`, for a session with a user. */
  predicate Refused(session: Option<Session>, userId: Id) {
    session.None? || (session.value.user.Some? && session.value.user.value.id != Some(userId))
  }

  /** `updateProfile(userId, data)`: store calls 1 (find the profile) and 2
      (update or create it). Creating a profile for a user id with no User
      row violates the Profile -> User relation, so the store refuses it. */
  function UpdateProfile(s: Store, session: Option<Session>, userId: Id, data: ProfileUpdate, fault: Fault)
    : (r: (Store, Answer<Profile>))
    // the authorization gate
    ensures Refused(session, userId) ==> r == (s, Failed(Unauthorized))
    ensures session.Some? && session.value.user.None? ==> r == (s, Failed(UpdateFailedPrefix + NoSessionUser))
    ensures r.1.Answered? <==> HasIdKey(session) && UserId(session) == userId && !FailsAt(fault, 1) && !FailsAt(fault, 2)
                               && (userId in s.profiles || HasUser(s, userId))
    // store failures are reported with the prefix and write nothing
    ensures HasIdKey(session) && UserId(session) == userId && (FailsAt(fault, 1) || FailsAt(fault, 2)) ==>
              r == (s, Failed(UpdateFailedPrefix + fault.message))
    ensures HasIdKey(session) && UserId(session) == userId && !FailsAt(fault, 1) && !FailsAt(fault, 2)
            && userId !in s.profiles && !HasUser(s, userId) ==>
              r == (s, Failed(UpdateFailedPrefix + ForeignKeyViolation))
    ensures r.1.Failed? ==> r.0 == s
    // after a success the user has exactly this profile, and nothing else changed
    ensures r.1.Answered? ==> r.0 == s.(profiles := s.profiles[userId := r.1.value])
    ensures r.1.Answered? && userId in s.profiles ==> r.1.value == Merge(s.profiles[userId], data)
    ensures r.1.Answered? && userId !in s.profiles ==> r.1.value == Fresh(data)
  {
    if session.None? then (s, Failed(Unauthorized))
    else if session.value.user.None? then (s, Failed(UpdateFailedPrefix + NoSessionUser))
    else if session.value.user.value.id != Some(userId) then (s, Failed(Unauthorized))
    else if FailsAt(fault, 1) || FailsAt(fault, 2) then (s, Failed(UpdateFailedPrefix + fault.message))
    else if userId !in s.profiles && !HasUser(s, userId) then (s, Failed(UpdateFailedPrefix + ForeignKeyViolation))
    else
      var profile := if userId in s.profiles then Merge(s.profiles[userId], data) else Fresh(data);
      (s.(profiles := s.profiles[userId := profile]), Answered(profile))
  }

  /** Only the caller's own profile can change: every other user's profile is
      exactly as before, whatever the outcome. */
  lemma UpdateProfileFramesOthers(s: Store, session: Option<Session>, userId: Id, data: ProfileUpdate,
                                  fault: Fault, other: Id)
    requires other != userId
    ensures var s' := UpdateProfile(s, session, userId, data, fault).0;
            (other in s'.profiles <==> other in s.profiles) &&
            (other in s.profiles ==> s'.profiles[other] == s.profiles[other])
  {
  }

  /** An empty bio is dropped to null when a profile is created, but stored
      as the empty string when an existing profile is updated. */
  lemma EmptyBioDependsOnPath(existing: Profile, data: ProfileUpdate)
    requires data.bio == Str("")
    ensures Fresh(data).bio.None?
    ensures Merge(existing, data).bio == Some("")
  {
  }
}
