/**
 * The server actions of src/app/actions/post.ts. Unlike the like actions,
 * these throw on a store failure, each with its own fixed message.
 */
module PostActions {
  import opened Values
  import opened Store
  import opened NewestFirst
  import LikeActions

  const CouldNotFetchPosts: string := "Could not fetch posts"
  const CouldNotToggleLike: string := "Could not toggle like"
  const CouldNotGetLikeCount: string := "Could not get like count"
  const CouldNotCreatePost: string := "Could not create post"

  /** One feed row: the post, its author's name and image, its like count and
      whether the viewer likes it. */
  datatype FeedPost = FeedPost(
    post: Post,
    authorName: Option<string>,
    authorImage: Option<string>,
    likeCount: nat,
    isLikedByUser: bool)

  function Rows(feed: seq<FeedPost>): (r: seq<Post>)
    ensures |r| == |feed| && forall i :: 0 <= i < |feed| ==> r[i] == feed[i].post
  {
    seq(|feed|, i requires 0 <= i < |feed| => feed[i].post)
  }

  /** The annotations `fetchPosts` adds to one post row. */
  function Annotate(s: Store, viewer: Option<Id>, p: Post): (e: FeedPost)
    requires HasUser(s, p.userId)
    ensures e.post == p && e.likeCount == LikeCount(s, p.id)
    ensures e.authorName == Author(s, p).name && e.authorImage == Author(s, p).image
    ensures e.isLikedByUser <==> Present(viewer) && Pair(viewer.value, p.id) in s.likes
  {
    var author := Author(s, p);
    if Present(viewer) then
      SomeLikeByIsKeyLookup(s, p.id, viewer.value);
      FeedPost(p, author.name, author.image, LikeCount(s, p.id), SomeLikeBy(s, p.id, viewer.value))
    else
      FeedPost(p, author.name, author.image, LikeCount(s, p.id), false)
  }

  /** `posts.map(...)` with `Annotate`, keeping the order. */
  function AnnotateAll(s: Store, viewer: Option<Id>, ps: seq<Post>): (r: seq<FeedPost>)
    requires forall p :: p in ps ==> HasUser(s, p.userId)
    ensures Rows(r) == ps
    ensures forall e :: e in r ==> e.post in ps
    ensures forall e :: e in r ==> e == Annotate(s, viewer, e.post)
    decreases |ps|
  {
    if |ps| == 0 then []
    else [Annotate(s, viewer, ps[0])] + AnnotateAll(s, viewer, ps[1..])
  }

  /** `fetchPosts(currentUserId?)`: one store call. */
  function FetchPosts(s: Store, currentUserId: Option<Id>, fault: Fault): (r: Outcome<seq<FeedPost>>)
    requires Valid(s)
    ensures r.Threw? <==> FailsAt(fault, 1)
    ensures r.Threw? ==> r.message == CouldNotFetchPosts
    // every post exactly once, newest first
    ensures r.Returned? ==> multiset(Rows(r.value)) == multiset(s.posts)
    ensures r.Returned? ==> Descending(Rows(r.value))
    // each row carries the live like count and the viewer's like status
    ensures r.Returned? ==> forall e :: e in r.value ==>
              && e.likeCount == LikeCount(s, e.post.id)
              && (e.isLikedByUser <==> Present(currentUserId) && Pair(currentUserId.value, e.post.id) in s.likes)
    // and its author's name and image, from the owner's user row
    ensures r.Returned? ==> forall e :: e in r.value ==> e.post in s.posts && HasUser(s, e.post.userId)
    ensures r.Returned? ==> forall e :: e in r.value ==> e == Annotate(s, currentUserId, e.post)
  {
    if FailsAt(fault, 1) then Threw(CouldNotFetchPosts)
    else
      var sorted := Sort(s.posts);
      assert forall p :: p in sorted ==> p in multiset(s.posts);
      RowsHaveOwners(s, sorted);
      Returned(AnnotateAll(s, currentUserId, sorted))
  }

  /** `fetchPostsByUserId(userId)`: one store call; the viewer is not
      consulted, so no row is marked liked. */
  function FetchPostsByUserId(s: Store, userId: Id, fault: Fault): (r: Outcome<seq<FeedPost>>)
    requires Valid(s)
    ensures r.Threw? <==> FailsAt(fault, 1)
    ensures r.Threw? ==> r.message == CouldNotFetchPosts
    ensures r.Returned? ==> forall p :: p in Rows(r.value) <==> p in s.posts && p.userId == userId
    ensures r.Returned? ==> multiset(Rows(r.value)) == multiset(OwnedBy(s.posts, userId))
    ensures r.Returned? ==> Descending(Rows(r.value))
    ensures r.Returned? ==> forall e :: e in r.value ==> !e.isLikedByUser && e.likeCount == LikeCount(s, e.post.id)
    ensures r.Returned? ==> forall e :: e in r.value ==> e == Annotate(s, None, e.post)
  {
    if FailsAt(fault, 1) then Threw(CouldNotFetchPosts)
    else
      var sorted := Sort(OwnedBy(s.posts, userId));
      OwnedMembers(s.posts, userId, sorted);
      RowsHaveOwners(s, sorted);
      Returned(AnnotateAll(s, None, sorted))
  }

  /** A permutation of a user's posts holds exactly that user's posts. */
  lemma OwnedMembers(posts: seq<Post>, userId: Id, sorted: seq<Post>)
    requires multiset(sorted) == multiset(OwnedBy(posts, userId))
    ensures forall p :: p in sorted <==> p in posts && p.userId == userId
  {
    forall p ensures p in sorted <==> p in posts && p.userId == userId {
      assert p in sorted <==> p in multiset(OwnedBy(posts, userId));
    }
  }

  /** `toggleLike(postId, userId)`: store calls 1 (look up the pair) and 2
      (delete or create it). There is no check for empty parameters. */
  function ToggleLike(s: Store, postId: Id, userId: Id, fault: Fault): (r: (Store, Outcome<bool>))
    ensures r.1.Threw? <==> FailsAt(fault, 1) || FailsAt(fault, 2)
    ensures r.1.Threw? ==> r == (s, Threw(CouldNotToggleLike))
    // `false` after deleting the row, `true` after creating it
    ensures r.1.Returned? ==> r.0 == s.(likes := r.0.likes)
    ensures r.1.Returned? ==> (r.1.value <==> Pair(userId, postId) !in s.likes)
    ensures r.1.Returned? ==> (r.1.value <==> Pair(userId, postId) in r.0.likes)
    ensures r.1.Returned? ==> forall q :: q != Pair(userId, postId) ==> (q in r.0.likes <==> q in s.likes)
  {
    if FailsAt(fault, 1) || FailsAt(fault, 2) then (s, Threw(CouldNotToggleLike))
    else
      var key := Pair(userId, postId);
      if key in s.likes then (s.(likes := s.likes - {key}), Returned(false))
      else (s.(likes := s.likes + {key}), Returned(true))
  }

  /** `toggleLike` and `togglePostLike` make the same change to the store
      when both succeed; they differ only in what they report. */
  lemma ToggleLikeAgreesWithStore(s: Store, postId: Id, userId: Id)
    ensures ToggleLike(s, postId, userId, NoFault).0.likes == Toggle(s.likes, Pair(userId, postId))
  {
  }

  /** `getLikeCount(postId)`: one store call; reads only. */
  function GetLikeCount(s: Store, postId: Id, fault: Fault): (r: Outcome<nat>)
    ensures r.Threw? <==> FailsAt(fault, 1)
    ensures r.Threw? ==> r.message == CouldNotGetLikeCount
    ensures r.Returned? ==> r.value == |set q | q in s.likes && q.postId == postId|
  {
    if FailsAt(fault, 1) then Threw(CouldNotGetLikeCount) else Returned(LikeCount(s, postId))
  }

  /** `createPost(userId, imageUrl, caption?)`: one store call, which the
      database also refuses for a taken id or an unknown owner. The new id
      and the creation time are the database's, so they are parameters. */
  function CreatePost(s: Store, userId: Id, imageUrl: string, caption: Option<string>,
                      newId: Id, now: nat, fault: Fault): (r: (Store, Outcome<Post>))
    ensures r.1.Threw? <==> FailsAt(fault, 1) || HasPost(s, newId) || !HasUser(s, userId)
    ensures r.1.Threw? ==> r == (s, Threw(CouldNotCreatePost))
    ensures r.1.Returned? ==> r.1.value == Post(newId, userId, imageUrl, caption, now)
    ensures r.1.Returned? ==> r.0 == s.(posts := s.posts + [r.1.value])
    ensures Valid(s) ==> Valid(r.0)
  {
    if FailsAt(fault, 1) || HasPost(s, newId) || !HasUser(s, userId) then (s, Threw(CouldNotCreatePost))
    else
      var post := Post(newId, userId, imageUrl, caption, now);
      var s' := s.(posts := s.posts + [post]);
      assert forall k :: 0 <= k < |s.posts| ==> s'.posts[k] == s.posts[k];
      (s', Returned(post))
  }

  /** After a successful `togglePostLike`, every read query of the like
      set reports what the toggle reported: the pair lookups give its
      `liked`, the two count queries give its `likeCount`. */
  lemma ReadsAgreeWithToggle(s: Store, postId: Id, userId: Id)
    requires postId != "" && userId != ""
    ensures var (s', t) := LikeActions.TogglePostLike(s, postId, userId, NoFault);
            && LikeActions.HasUserLikedPost(s', postId, userId, NoFault) == Answered(t.liked)
            && LikeActions.GetPostLikeCount(s', postId, NoFault) == Answered(t.likeCount)
            && GetLikeCount(s', postId, NoFault) == Returned(t.likeCount)
            && ToggleLike(s, postId, userId, NoFault) == (s', Returned(t.liked))
  {
  }

  /** Every post of a valid store has a feed entry, and `getPostWithLikes`
      for that post reports exactly the entry's post row, like count and
      liked status, for the same viewer. */
  lemma PostWithLikesAgreesWithFeed(s: Store, viewer: Option<Id>, k: nat)
    requires Valid(s) && k < |s.posts|
    ensures var feed := FetchPosts(s, viewer, NoFault).value;
            && (exists i :: 0 <= i < |feed| && feed[i].post == s.posts[k])
            && forall i :: 0 <= i < |feed| && feed[i].post == s.posts[k] ==>
                 LikeActions.GetPostWithLikes(s, s.posts[k].id, viewer, NoFault)
                 == Answered(LikeActions.PostWithLikes(feed[i].post, feed[i].likeCount, feed[i].isLikedByUser))
  {
    var feed := FetchPosts(s, viewer, NoFault).value;
    var p := s.posts[k];
    var i := FeedHasRow(s, viewer, k);
    var g := PostWithLikesOfRow(s, viewer, k);
    forall j | 0 <= j < |feed| && feed[j].post == p
      ensures LikeActions.GetPostWithLikes(s, p.id, viewer, NoFault) == Answered(LikeActions.PostWithLikes(feed[j].post, feed[j].likeCount, feed[j].isLikedByUser))
    {
      assert feed[j] in feed;
    }
  }

  /** Every row of the post table has an entry in the feed. */
  lemma FeedHasRow(s: Store, viewer: Option<Id>, k: nat) returns (i: nat)
    requires Valid(s) && k < |s.posts|
    ensures i < |FetchPosts(s, viewer, NoFault).value|
    ensures FetchPosts(s, viewer, NoFault).value[i].post == s.posts[k]
  {
    var feed := FetchPosts(s, viewer, NoFault).value;
    var rows := Rows(feed);
    assert s.posts[k] in multiset(rows);
    assert s.posts[k] in rows;
    i :| 0 <= i < |feed| && Rows(feed)[i] == s.posts[k];
  }

  /** `getPostWithLikes` of a row of a valid store finds that very row. */
  lemma PostWithLikesOfRow(s: Store, viewer: Option<Id>, k: nat) returns (g: LikeActions.PostWithLikes)
    requires Valid(s) && k < |s.posts|
    ensures LikeActions.GetPostWithLikes(s, s.posts[k].id, viewer, NoFault) == Answered(g)
    ensures g.post == s.posts[k] && g.likeCount == LikeCount(s, s.posts[k].id)
    ensures g.isLikedByUser <==> Present(viewer) && Pair(viewer.value, s.posts[k].id) in s.likes
  {
    assert HasPost(s, s.posts[k].id);
    var r := LikeActions.GetPostWithLikes(s, s.posts[k].id, viewer, NoFault);
    g := r.value;
    var a :| 0 <= a < |s.posts| && s.posts[a] == g.post;
    assert a == k;
  }
}
