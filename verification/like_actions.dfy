/**
 * The server actions of src/app/actions/like.ts: a structured like toggle
 * that reports the re-counted total, and three read queries. None of them
 * throws; failures come back as `success: false` records.
 */
module LikeActions {
  import opened Values
  import opened Store

  const MissingParameters: string := "Missing required parameters"
  const PostNotFound: string := "Post not found"

  /** `{success, error?, liked, likeCount}`. */
  datatype ToggleReport = ToggleReport(success: bool, error: Option<string>, liked: bool, likeCount: nat)

  function FailedToggle(error: string): (t: ToggleReport)
    ensures !t.success && !t.liked && t.likeCount == 0 && t.error == Some(error)
  {
    ToggleReport(false, Some(error), false, 0)
  }

  /** `togglePostLike(postId, userId)`: store calls 1 (look up the pair),
      2 (delete or create it) and 3 (count the post's likes). */
  function TogglePostLike(s: Store, postId: Id, userId: Id, fault: Fault): (r: (Store, ToggleReport))
    // empty parameters: refused before the store is touched
    ensures postId == "" || userId == "" ==> r == (s, FailedToggle(MissingParameters))
    // the only store change possible is the toggle of this one pair
    ensures r.0 == s || r.0 == s.(likes := Toggle(s.likes, Pair(userId, postId)))
    ensures r.0.users == s.users && r.0.posts == s.posts && r.0.profiles == s.profiles && r.0.saved == s.saved
    ensures r.1.success <==> postId != "" && userId != "" && !(FailsAt(fault, 1) || FailsAt(fault, 2) || FailsAt(fault, 3))
    ensures r.1.success ==> r.1.error.None?
    // after a success the pair is present exactly when it was absent before
    ensures r.1.success ==> (Pair(userId, postId) in r.0.likes <==> Pair(userId, postId) !in s.likes)
    ensures r.1.success ==> (r.1.liked <==> Pair(userId, postId) in r.0.likes)
    // the reported count is the fresh count of the post-toggle store
    ensures r.1.success ==> r.1.likeCount == LikeCount(r.0, postId)
    ensures r.1.success && r.1.liked ==> r.1.likeCount == LikeCount(s, postId) + 1
    ensures r.1.success && !r.1.liked ==> r.1.likeCount == LikeCount(s, postId) - 1
    // every failure reports not liked and a zero count
    ensures !r.1.success ==> !r.1.liked && r.1.likeCount == 0 && r.1.error.Some?
    // a failure of the lookup or the write leaves the store as it was; a
    // failure of the count comes after the write and keeps it
    ensures postId != "" && userId != "" && (FailsAt(fault, 1) || FailsAt(fault, 2)) ==> r == (s, FailedToggle(ErrorString(fault)))
    ensures postId != "" && userId != "" && FailsAt(fault, 3) ==>
              r == (s.(likes := Toggle(s.likes, Pair(userId, postId))), FailedToggle(ErrorString(fault)))
  {
    if postId == "" || userId == "" then (s, FailedToggle(MissingParameters))
    else if FailsAt(fault, 1) then (s, FailedToggle(ErrorString(fault)))
    else
      var key := Pair(userId, postId);
      var existing := key in s.likes;
      if FailsAt(fault, 2) then (s, FailedToggle(ErrorString(fault)))
      else
        var s' := s.(likes := Toggle(s.likes, key));
        if FailsAt(fault, 3) then (s', FailedToggle(ErrorString(fault)))
        else
          ToggleCount(s.likes, key, postId);
          (s', ToggleReport(true, None, !existing, LikeCount(s', postId)))
  }

  /** Two successful toggles of the same pair in a row restore the like set,
      and the second reports the count the first started from. */
  lemma TogglePostLikeTwice(s: Store, postId: Id, userId: Id)
    requires postId != "" && userId != ""
    ensures var (s1, t1) := TogglePostLike(s, postId, userId, NoFault);
            var (s2, t2) := TogglePostLike(s1, postId, userId, NoFault);
            s2 == s && t1.liked != t2.liked && t2.likeCount == LikeCount(s, postId)
  {
    ToggleTwice(s.likes, Pair(userId, postId));
  }

  /** The result of `getPostWithLikes`: the post row, its like count and
      whether the given user likes it. */
  datatype PostWithLikes = PostWithLikes(post: Post, likeCount: nat, isLikedByUser: bool)

  /** `getPostWithLikes(postId, userId?)`: store calls 1 (the post with its
      like count) and 2 (the pair, only when a user id is given). */
  function GetPostWithLikes(s: Store, postId: Id, userId: Option<Id>, fault: Fault): (r: Answer<PostWithLikes>)
    ensures FailsAt(fault, 1) ==> r == Failed(ErrorString(fault))
    ensures !FailsAt(fault, 1) && !HasPost(s, postId) ==> r == Failed(PostNotFound)
    ensures !FailsAt(fault, 1) && HasPost(s, postId) && Present(userId) && FailsAt(fault, 2) ==> r == Failed(ErrorString(fault))
    ensures r.Answered? ==> r.value.post in s.posts && r.value.post.id == postId
    ensures r.Answered? ==> r.value.likeCount == LikeCount(s, postId)
    ensures r.Answered? ==> (r.value.isLikedByUser <==> Present(userId) && Pair(userId.value, postId) in s.likes)
    ensures r.Failed? <==> FailsAt(fault, 1) || !HasPost(s, postId) || (Present(userId) && FailsAt(fault, 2))
  {
    if FailsAt(fault, 1) then Failed(ErrorString(fault))
    else
      match FindPost(s.posts, postId)
      case None => Failed(PostNotFound)
      case Some(post) =>
        if !Present(userId) then Answered(PostWithLikes(post, LikeCount(s, postId), false))
        else if FailsAt(fault, 2) then Failed(ErrorString(fault))
        else Answered(PostWithLikes(post, LikeCount(s, postId), Pair(userId.value, postId) in s.likes))
  }

  /** `getPostLikeCount(postId)`: one store call. */
  function GetPostLikeCount(s: Store, postId: Id, fault: Fault): (r: Answer<nat>)
    ensures r.Answered? <==> !FailsAt(fault, 1)
    ensures r.Answered? ==> r.value == |set q | q in s.likes && q.postId == postId|
    ensures r.Failed? ==> r.error == ErrorString(fault)
  {
    if FailsAt(fault, 1) then Failed(ErrorString(fault)) else Answered(LikeCount(s, postId))
  }

  /** `hasUserLikedPost(postId, userId)`: an empty user id is answered
      `false` without a store call; otherwise one store call. */
  function HasUserLikedPost(s: Store, postId: Id, userId: Id, fault: Fault): (r: Answer<bool>)
    ensures userId == "" ==> r == Answered(false)
    ensures r.Answered? <==> userId == "" || !FailsAt(fault, 1)
    ensures userId != "" && FailsAt(fault, 1) ==> r == Failed(ErrorString(fault))
    ensures r.Answered? ==> (r.value <==> userId != "" && Pair(userId, postId) in s.likes)
  {
    if userId == "" then Answered(false)
    else if FailsAt(fault, 1) then Failed(ErrorString(fault))
    else Answered(Pair(userId, postId) in s.likes)
  }
}
