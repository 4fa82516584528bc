/**
 * The relational store as one immutable value: the User, Post, Profile,
 * Like and SavedPost tables, the queries the actions run against them, and
 * the way a store call can fail.
 *
 * Users and posts are kept as row sequences in table order (a `findFirst`
 * without ordering returns the first matching row); profiles are keyed by
 * their unique `userId`; a like or a saved post is just its
 * `(userId, postId)` pair, since the pair is a unique key.
 */
module Store {
  import opened Values

  type Id = string

  datatype User = User(id: Id, name: Option<string>, email: Option<string>, image: Option<string>)

  datatype Post = Post(id: Id, userId: Id, imageUrl: string, caption: Option<string>, createdAt: nat)

  datatype Profile = Profile(bio: Option<string>, location: Option<string>, interests: seq<string>)

  /** The compound key `userId_postId` of a Like or SavedPost row. */
  datatype Pair = Pair(userId: Id, postId: Id)

  datatype Store = Store(
    users: seq<User>,
    posts: seq<Post>,
    profiles: map<Id, Profile>,
    likes: set<Pair>,
    saved: set<Pair>)

  /** Which store call of an operation throws, counting the calls from 1, and
      the `name` and `message` of the error it throws. */
  datatype Fault = NoFault | FailAt(call: nat, name: string, message: string)

  predicate FailsAt(f: Fault, call: nat) {
    f.FailAt? && f.call == call
  }

  /** `String(error)` of the thrown error, as `Error.prototype.toString`
      renders it (section 20.5.3.4 of ECMA-262): the name, then ": " and the
      message when both are non-empty, otherwise whichever is non-empty. It
      is empty when there is no fault. */
  function ErrorString(f: Fault): (r: string)
    ensures f.NoFault? ==> r == ""
    ensures f.FailAt? && f.name != "" && f.message != "" ==> r == f.name + ": " + f.message
    ensures f.FailAt? && f.name == "" ==> r == f.message
    ensures f.FailAt? && f.message == "" ==> r == f.name
    ensures f.FailAt? ==> |f.message| <= |r| && r[|r| - |f.message|..] == f.message
    ensures f.FailAt? && f.name != "" ==> |f.name| <= |r| && r[..|f.name|] == f.name
  {
    match f
    case NoFault => ""
    case FailAt(_, name, message) =>
      if name == "" then message
      else if message == "" then name
      else name + ": " + message
  }

  /** What a throwing action gives its caller: a value, or an exception. */
  datatype Outcome<+T> = Returned(value: T) | Threw(message: string)

  /** What a non-throwing action gives its caller: `{success: true, ...}` or
      `{success: false, error}`. */
  datatype Answer<+T> = Answered(value: T) | Failed(error: string)

  /** The message of the error the store throws for a duplicate primary key. */
  const UniqueViolation: string := "Unique constraint failed on the fields: (`id`)"
  /** The message of the error the store throws for a missing referenced row. */
  const ForeignKeyViolation: string := "Foreign key constraint failed on the field: `userId`"
  /** The message of the error the store throws when the row to update is missing. */
  const RecordNotFound: string := "Record to update not found."

  // ---------------------------------------------------------------- lookups

  /** The first element of `xs` that satisfies `p`, scanning in table order. */
  function FirstWhere<T>(xs: seq<T>, p: T -> bool): (r: Option<T>)
    ensures r.Some? ==> exists k :: 0 <= k < |xs| && xs[k] == r.value && p(xs[k]) && forall j :: 0 <= j < k ==> !p(xs[j])
    ensures r.None? <==> forall k :: 0 <= k < |xs| ==> !p(xs[k])
    decreases |xs|
  {
    if |xs| == 0 then None
    else if p(xs[0]) then
      assert xs[0] == xs[0];
      Some(xs[0])
    else
      var r := FirstWhere(xs[1..], p);
      assert forall k :: 1 <= k < |xs| ==> xs[k] == xs[1..][k - 1];
      r
  }

  /** `user.findUnique({where: {id}})`. */
  function FindUser(users: seq<User>, id: Id): (r: Option<User>)
    ensures r.Some? ==> r.value in users && r.value.id == id
    ensures r.None? <==> forall k :: 0 <= k < |users| ==> users[k].id != id
  {
    FirstWhere(users, (u: User) => u.id == id)
  }

  /** `user.findUnique({where: {email}})`: the first row carrying that email. */
  function FindUserByEmail(users: seq<User>, email: string): (r: Option<User>)
    ensures r.Some? ==> r.value in users && r.value.email == Some(email)
    ensures r.None? <==> forall k :: 0 <= k < |users| ==> users[k].email != Some(email)
  {
    FirstWhere(users, (u: User) => u.email == Some(email))
  }

  /** `post.findUnique({where: {id}})`. */
  function FindPost(posts: seq<Post>, id: Id): (r: Option<Post>)
    ensures r.Some? ==> r.value in posts && r.value.id == id
    ensures r.None? <==> forall k :: 0 <= k < |posts| ==> posts[k].id != id
  {
    FirstWhere(posts, (q: Post) => q.id == id)
  }

  predicate HasUser(s: Store, id: Id) {
    exists k :: 0 <= k < |s.users| && s.users[k].id == id
  }

  predicate HasPost(s: Store, id: Id) {
    exists k :: 0 <= k < |s.posts| && s.posts[k].id == id
  }

  /** The rows of a pair relation that reference `postId`. */
  function RowsOn(rows: set<Pair>, postId: Id): (r: set<Pair>)
    ensures forall q :: q in r <==> q in rows && q.postId == postId
  {
    set q | q in rows && q.postId == postId
  }

  /** `like.count({where: {postId}})`. */
  function LikeCount(s: Store, postId: Id): nat {
    |RowsOn(s.likes, postId)|
  }

  /** `likes.some(like => like.userId === userId)` over the likes of one post. */
  predicate SomeLikeBy(s: Store, postId: Id, userId: Id) {
    exists q :: q in RowsOn(s.likes, postId) && q.userId == userId
  }

  /** Scanning a post's likes for the user is the same as looking up the
      compound key. */
  lemma SomeLikeByIsKeyLookup(s: Store, postId: Id, userId: Id)
    ensures SomeLikeBy(s, postId, userId) <==> Pair(userId, postId) in s.likes
  {
    if Pair(userId, postId) in s.likes {
      assert Pair(userId, postId) in RowsOn(s.likes, postId);
    }
  }

  // ---------------------------------------------------------- the like set

  /** Delete the row if it exists, otherwise create it. */
  function Toggle(rows: set<Pair>, p: Pair): (r: set<Pair>)
    ensures p in r <==> p !in rows
    ensures forall q :: q != p ==> (q in r <==> q in rows)
  {
    if p in rows then rows - {p} else rows + {p}
  }

  /** Toggling the same pair twice gives the original rows back. */
  lemma ToggleTwice(rows: set<Pair>, p: Pair)
    ensures Toggle(Toggle(rows, p), p) == rows
  {
    var once := Toggle(rows, p);
    var twice := Toggle(once, p);
    assert forall q :: q in twice <==> q in rows;
  }

  /** A toggle moves the count of its own post by exactly one, in the
      direction of the toggle, and leaves every other post's count alone. */
  lemma ToggleCount(rows: set<Pair>, p: Pair, postId: Id)
    ensures postId == p.postId && p !in rows ==> |RowsOn(Toggle(rows, p), postId)| == |RowsOn(rows, postId)| + 1
    ensures postId == p.postId && p in rows ==> |RowsOn(Toggle(rows, p), postId)| == |RowsOn(rows, postId)| - 1
    ensures postId != p.postId ==> RowsOn(Toggle(rows, p), postId) == RowsOn(rows, postId)
  {
    var before := RowsOn(rows, postId);
    var after := RowsOn(Toggle(rows, p), postId);
    if postId == p.postId {
      if p in rows {
        assert after == before - {p};
      } else {
        assert after == before + {p};
      }
    } else {
      assert after == before;
    }
  }

  // ---------------------------------------------------- schema constraints

  ghost predicate UniqueUserIds(users: seq<User>) {
    forall i, j :: 0 <= i < j < |users| ==> users[i].id != users[j].id
  }

  ghost predicate UniqueEmails(users: seq<User>) {
    forall i, j :: 0 <= i < j < |users| && users[i].email.Some? ==> users[i].email != users[j].email
  }

  ghost predicate UniquePostIds(posts: seq<Post>) {
    forall i, j :: 0 <= i < j < |posts| ==> posts[i].id != posts[j].id
  }

  /** Every post's `userId` references a user (the Post -> User relation). */
  ghost predicate OwnersExist(s: Store) {
    forall k :: 0 <= k < |s.posts| ==> HasUser(s, s.posts[k].userId)
  }

  /** The constraints the schema makes the database keep. */
  ghost predicate Valid(s: Store) {
    && UniqueUserIds(s.users)
    && UniqueEmails(s.users)
    && UniquePostIds(s.posts)
    && OwnersExist(s)
  }

  /** Rows drawn from the post table have their owners in the user table. */
  lemma RowsHaveOwners(s: Store, ps: seq<Post>)
    requires OwnersExist(s)
    requires forall p :: p in ps ==> p in s.posts
    ensures forall p :: p in ps ==> HasUser(s, p.userId)
    ensures forall k :: 0 <= k < |ps| ==> HasUser(s, ps[k].userId)
  {
    forall p | p in ps ensures HasUser(s, p.userId) {
      var k :| 0 <= k < |s.posts| && s.posts[k] == p;
    }
  }

  /** The author row of a post; the schema guarantees there is one. */
  function Author(s: Store, p: Post): (u: User)
    requires HasUser(s, p.userId)
    ensures u in s.users && u.id == p.userId
  {
    FindUser(s.users, p.userId).value
  }
}
