/**
 * The diagnostic actions of src/app/actions/debug.ts: a report over all
 * posts (counters, a missing-data check, a name/email filter) and the
 * creation of a fixed test post for a matching user.
 */
module DebugActions {
  import opened Values
  import opened Text
  import opened Store
  import opened NewestFirst

  const DebugFailedPrefix: string := "Failed to debug posts: "
  const NoTestUser: string := "Could not find Jack Doyle or admin user"
  const TestPostFailedPrefix: string := "Failed to create test post: "
  const TestImageUrl: string := "https://source.unsplash.com/random/800x600/?nature"
  const TestCaption: string := "This is a test post created by the debug system"

  /** One post as the report shows it. */
  datatype DebugRow = DebugRow(
    id: Id, userId: Id, userName: string, userEmail: string, imageUrl: string,
    caption: Option<string>, createdAt: nat, likeCount: nat, saveCount: nat)

  /** A row of the `posts` list, which also carries the missing-data flag. */
  datatype CheckedRow = CheckedRow(row: DebugRow, hasIssues: bool)

  datatype DebugReport = DebugReport(
    totalPosts: nat,
    postsWithMissingData: nat,
    postsWithIssues: seq<Id>,
    jackDoylePostCount: nat,
    jackDoylePosts: seq<DebugRow>,
    posts: seq<CheckedRow>,
    users: seq<User>)

  /** `name || email?.split('@')[0] || 'Unknown'`. */
  function DisplayName(u: User): (name: string)
    ensures Present(u.name) ==> name == u.name.value
    ensures !Present(u.name) && u.email.Some? && BeforeFirst(u.email.value, '@') != "" ==>
              name == BeforeFirst(u.email.value, '@')
    ensures !Present(u.name) && (u.email.None? || BeforeFirst(u.email.value, '@') == "") ==> name == "Unknown"
    ensures name != ""
  {
    if Present(u.name) then u.name.value
    else if u.email.Some? && BeforeFirst(u.email.value, '@') != "" then BeforeFirst(u.email.value, '@')
    else "Unknown"
  }

  /** A post's fields with the report's fallbacks and its two counters. */
  function RowOf(s: Store, p: Post): (row: DebugRow)
    requires HasUser(s, p.userId)
    ensures row.id == p.id && row.userId == p.userId && row.caption == p.caption && row.createdAt == p.createdAt
    ensures row.userName == DisplayName(Author(s, p))
    ensures row.userEmail == (if Present(Author(s, p).email) then Author(s, p).email.value else "No email")
    ensures row.imageUrl == (if p.imageUrl != "" then p.imageUrl else "Missing image URL")
    ensures row.likeCount == |set q | q in s.likes && q.postId == p.id|
    ensures row.saveCount == |set q | q in s.saved && q.postId == p.id|
  {
    var author := Author(s, p);
    DebugRow(
      p.id, p.userId, DisplayName(author),
      if Present(author.email) then author.email.value else "No email",
      if p.imageUrl != "" then p.imageUrl else "Missing image URL",
      p.caption, p.createdAt, |RowsOn(s.likes, p.id)|, |RowsOn(s.saved, p.id)|)
  }

  /** `!post.imageUrl || !post.userId`. */
  predicate HasIssues(p: Post) {
    p.imageUrl == "" || p.userId == ""
  }

  /** The ids of the flagged rows, in row order. */
  function FlaggedIds(rows: seq<CheckedRow>): (ids: seq<Id>)
    ensures |ids| <= |rows|
    decreases |rows|
  {
    if |rows| == 0 then []
    else
      var last := rows[|rows| - 1];
      FlaggedIds(rows[..|rows| - 1]) + (if last.hasIssues then [last.row.id] else [])
  }

  lemma FlaggedIdsSnoc(rows: seq<CheckedRow>, x: CheckedRow)
    ensures FlaggedIds(rows + [x]) == FlaggedIds(rows) + (if x.hasIssues then [x.row.id] else [])
  {
    assert (rows + [x])[..|rows|] == rows;
  }

  /** Collecting the flagged ids and counting the flagged rows agree. */
  lemma {:induction false} FlaggedIdsCount(rows: seq<CheckedRow>)
    ensures |FlaggedIds(rows)| == |set i | 0 <= i < |rows| && rows[i].hasIssues|
    decreases |rows|
  {
    if |rows| > 0 {
      var n := |rows| - 1;
      var init := rows[..n];
      FlaggedIdsCount(init);
      var before := set i | 0 <= i < |init| && init[i].hasIssues;
      var after := set i | 0 <= i < |rows| && rows[i].hasIssues;
      if rows[n].hasIssues {
        assert after == before + {n};
      } else {
        assert after == before;
      }
    }
  }

  /** Every post of `ps` has its author in the user table. */
  predicate Authored(s: Store, ps: seq<Post>) {
    forall k :: 0 <= k < |ps| ==> HasUser(s, ps[k].userId)
  }

  /** Each post's row and its missing-data flag, in order. */
  function CheckRows(s: Store, ps: seq<Post>): (rows: seq<CheckedRow>)
    requires Authored(s, ps)
    ensures |rows| == |ps|
    ensures forall i :: 0 <= i < |ps| ==> rows[i].row == RowOf(s, ps[i])
    ensures forall i :: 0 <= i < |ps| ==> (rows[i].hasIssues <==> ps[i].imageUrl == "" || ps[i].userId == "")
    ensures Descending(ps) ==> forall i, j :: 0 <= i < j < |rows| ==> rows[i].row.createdAt >= rows[j].row.createdAt
  {
    seq(|ps|, k requires 0 <= k < |ps| => CheckedRow(RowOf(s, ps[k]), HasIssues(ps[k])))
  }

  /** The counter and the pushes onto `postsWithIssues` that the source's
      `posts.map(...)` callback performs, as the loop it runs. */
  method CountFlagged(rows: seq<CheckedRow>) returns (missing: nat, issues: seq<Id>)
    ensures issues == FlaggedIds(rows)
    ensures missing == |issues|
  {
    missing, issues := 0, [];
    var i := 0;
    while i < |rows|
      invariant 0 <= i <= |rows|
      invariant issues == FlaggedIds(rows[..i])
      invariant missing == |issues|
    {
      FlaggedIdsSnoc(rows[..i], rows[i]);
      assert rows[..i + 1] == rows[..i] + [rows[i]];
      if rows[i].hasIssues {
        missing := missing + 1;
        issues := issues + [rows[i].row.id];
      }
      i := i + 1;
    }
    assert rows[..i] == rows;
  }

  /** The filter for the named test user: by name or by email. */
  predicate LooksLikeJackDoyle(u: User) {
    (u.name.Some? && Contains(ToLower(u.name.value), "jack doyle"))
    || (u.email.Some? && Contains(ToLower(u.email.value), "jack"))
    || (u.email.Some? && Contains(ToLower(u.email.value), "doyle"))
  }

  /** `a` is `b` with some elements dropped, order kept. */
  ghost predicate SubsequenceOf(a: seq<Post>, b: seq<Post>)
    decreases |b|
  {
    if |a| == 0 then true
    else if |b| == 0 then false
    else (a[0] == b[0] && SubsequenceOf(a[1..], b[1..])) || SubsequenceOf(a, b[1..])
  }

  /** `posts.filter(...)` with the test-user predicate on each post's author. */
  function JackDoylePosts(s: Store, ps: seq<Post>): (r: seq<Post>)
    requires forall p :: p in ps ==> HasUser(s, p.userId)
    ensures SubsequenceOf(r, ps)
    ensures forall p :: p in r <==> p in ps && LooksLikeJackDoyle(Author(s, p))
    ensures Authored(s, r)
    decreases |ps|
  {
    if |ps| == 0 then []
    else
      var rest := JackDoylePosts(s, ps[1..]);
      if LooksLikeJackDoyle(Author(s, ps[0])) then
        assert ([ps[0]] + rest)[1..] == rest;
        [ps[0]] + rest
      else
        SkipKeepsSubsequence(rest, ps);
        rest
  }

  lemma SkipKeepsSubsequence(a: seq<Post>, b: seq<Post>)
    requires |b| > 0 && SubsequenceOf(a, b[1..])
    ensures SubsequenceOf(a, b)
  {
  }

  function RowsOf(s: Store, ps: seq<Post>): (rows: seq<DebugRow>)
    requires Authored(s, ps)
    ensures |rows| == |ps| && forall i :: 0 <= i < |ps| ==> rows[i] == RowOf(s, ps[i])
  {
    seq(|ps|, i requires 0 <= i < |ps| => RowOf(s, ps[i]))
  }

  /** All posts, newest first; under the schema every one has its author. */
  function NewestPosts(s: Store): (r: seq<Post>)
    ensures multiset(r) == multiset(s.posts) && Descending(r) && |r| == |s.posts|
    ensures OwnersExist(s) ==> Authored(s, r)
    ensures OwnersExist(s) ==> forall p :: p in r ==> HasUser(s, p.userId)
  {
    var r := Sort(s.posts);
    PermutationHasOwners(s, r);
    r
  }

  lemma PermutationHasOwners(s: Store, r: seq<Post>)
    requires multiset(r) == multiset(s.posts)
    ensures OwnersExist(s) ==> forall p :: p in r ==> HasUser(s, p.userId)
    ensures OwnersExist(s) ==> forall k :: 0 <= k < |r| ==> HasUser(s, r[k].userId)
  {
    assert forall p :: p in r ==> p in multiset(s.posts);
    if OwnersExist(s) {
      RowsHaveOwners(s, r);
    }
  }

  /** `debugPosts()`: store calls 1 (all posts, newest first) and 2 (all users). */
  method DebugPosts(s: Store, fault: Fault) returns (r: Outcome<DebugReport>)
    requires OwnersExist(s)
    ensures r.Threw? <==> FailsAt(fault, 1) || FailsAt(fault, 2)
    ensures r.Threw? ==> r.message == DebugFailedPrefix + fault.message
    ensures r.Returned? ==> r.value.totalPosts == |s.posts| && |r.value.posts| == |s.posts|
    ensures r.Returned? ==> r.value.posts == CheckRows(s, NewestPosts(s))
    ensures r.Returned? ==> forall i :: 0 <= i < |r.value.posts| ==>
              (r.value.posts[i].hasIssues <==> NewestPosts(s)[i].imageUrl == "" || NewestPosts(s)[i].userId == "")
    ensures r.Returned? ==> forall i :: 0 <= i < |r.value.posts| ==> r.value.posts[i].row == RowOf(s, NewestPosts(s)[i])
    ensures r.Returned? ==> forall i, j :: 0 <= i < j < |r.value.posts| ==>
              r.value.posts[i].row.createdAt >= r.value.posts[j].row.createdAt
    ensures r.Returned? ==> r.value.postsWithMissingData == |r.value.postsWithIssues|
    ensures r.Returned? ==> r.value.postsWithMissingData == |set i | 0 <= i < |r.value.posts| && r.value.posts[i].hasIssues|
    ensures r.Returned? ==> r.value.postsWithIssues == FlaggedIds(r.value.posts)
    ensures r.Returned? ==> r.value.jackDoylePosts == RowsOf(s, JackDoylePosts(s, NewestPosts(s)))
    ensures r.Returned? ==> r.value.jackDoylePostCount == |r.value.jackDoylePosts|
    ensures r.Returned? ==> r.value.users == s.users
  {
    if FailsAt(fault, 1) || FailsAt(fault, 2) {
      return Threw(DebugFailedPrefix + fault.message);
    }
    var rows := CheckRows(s, NewestPosts(s));
    var missing, issues := CountFlagged(rows);
    var report := Report(s);
    assert report.postsWithMissingData == missing && report.postsWithIssues == issues;
    return Returned(report);
  }

  /** The report `debugPosts` returns; its loop computes the counter and the
      id list given here as `FlaggedIds`. */
  function Report(s: Store): (rep: DebugReport)
    requires OwnersExist(s)
    ensures rep.totalPosts == |s.posts| && |rep.posts| == |s.posts|
    ensures rep.posts == CheckRows(s, NewestPosts(s))
    ensures forall i :: 0 <= i < |rep.posts| ==>
              (rep.posts[i].hasIssues <==> NewestPosts(s)[i].imageUrl == "" || NewestPosts(s)[i].userId == "")
    ensures forall i :: 0 <= i < |rep.posts| ==> rep.posts[i].row == RowOf(s, NewestPosts(s)[i])
    ensures forall i, j :: 0 <= i < j < |rep.posts| ==>
              rep.posts[i].row.createdAt >= rep.posts[j].row.createdAt
    ensures rep.postsWithMissingData == |rep.postsWithIssues|
    ensures rep.postsWithMissingData == |set i | 0 <= i < |rep.posts| && rep.posts[i].hasIssues|
    ensures rep.postsWithIssues == FlaggedIds(rep.posts)
    ensures rep.jackDoylePosts == RowsOf(s, JackDoylePosts(s, NewestPosts(s)))
    ensures rep.jackDoylePostCount == |rep.jackDoylePosts|
    ensures rep.users == s.users
  {
    var sorted := NewestPosts(s);
    var jack := JackDoylePosts(s, sorted);
    var rows := CheckRows(s, sorted);
    var issues := FlaggedIds(rows);
    FlaggedIdsCount(rows);
    var jackRows := RowsOf(s, jack);
    DebugReport(|sorted|, |issues|, issues, |jackRows|, jackRows, rows, s.users)
  }

  /** `user.findFirst` with the test-user condition, which also accepts an
      email containing "admin". */
  predicate TestUserCandidate(u: User) {
    LooksLikeJackDoyle(u) || (u.email.Some? && Contains(ToLower(u.email.value), "admin"))
  }

  function FirstCandidate(users: seq<User>): (r: Option<User>)
    ensures r.None? <==> forall k :: 0 <= k < |users| ==> !TestUserCandidate(users[k])
    ensures r.Some? ==> exists k :: 0 <= k < |users| && users[k] == r.value && TestUserCandidate(r.value)
                           && forall j :: 0 <= j < k ==> !TestUserCandidate(users[j])
    decreases |users|
  {
    if |users| == 0 then None
    else if TestUserCandidate(users[0]) then
      assert users[0] == users[0];
      Some(users[0])
    else
      var r := FirstCandidate(users[1..]);
      if r.Some? then
        var k :| 0 <= k < |users[1..]| && users[1..][k] == r.value && TestUserCandidate(r.value)
                 && forall j :: 0 <= j < k ==> !TestUserCandidate(users[1..][j]);
        assert users[k + 1] == r.value;
        r
      else r
  }

  /** What `createTestPost` reports about the new post. */
  datatype TestPost = TestPost(id: Id, userId: Id, userName: string, imageUrl: string, caption: Option<string>, createdAt: nat)

  /** `createTestPost()`: store calls 1 (find the user) and 2 (create the
      post). The new id and the time are the database's. */
  function CreateTestPost(s: Store, newId: Id, now: nat, fault: Fault): (r: (Store, Answer<TestPost>))
    ensures FailsAt(fault, 1) ==> r == (s, Failed(TestPostFailedPrefix + fault.message))
    ensures !FailsAt(fault, 1) && FirstCandidate(s.users).None? ==> r == (s, Failed(NoTestUser))
    ensures !FailsAt(fault, 1) && FirstCandidate(s.users).Some? && FailsAt(fault, 2) ==>
              r == (s, Failed(TestPostFailedPrefix + fault.message))
    ensures !FailsAt(fault, 1) && FirstCandidate(s.users).Some? && !FailsAt(fault, 2) && HasPost(s, newId) ==>
              r == (s, Failed(TestPostFailedPrefix + UniqueViolation))
    ensures r.1.Failed? ==> r.0 == s
    ensures r.1.Answered? <==> !FailsAt(fault, 1) && FirstCandidate(s.users).Some? && !FailsAt(fault, 2) && !HasPost(s, newId)
    ensures r.1.Answered? ==>
              var owner := FirstCandidate(s.users).value;
              && r.0 == s.(posts := s.posts + [Post(newId, owner.id, TestImageUrl, Some(TestCaption), now)])
              && r.1.value == TestPost(newId, owner.id, DisplayName(owner), TestImageUrl, Some(TestCaption), now)
    ensures Valid(s) ==> Valid(r.0)
  {
    if FailsAt(fault, 1) then (s, Failed(TestPostFailedPrefix + fault.message))
    else
      match FirstCandidate(s.users)
      case None => (s, Failed(NoTestUser))
      case Some(owner) =>
        if FailsAt(fault, 2) then (s, Failed(TestPostFailedPrefix + fault.message))
        else if HasPost(s, newId) then (s, Failed(TestPostFailedPrefix + UniqueViolation))
        else
          var post := Post(newId, owner.id, TestImageUrl, Some(TestCaption), now);
          var s' := s.(posts := s.posts + [post]);
          assert HasUser(s, owner.id);
          assert forall k :: 0 <= k < |s.posts| ==> s'.posts[k] == s.posts[k];
          (s', Answered(TestPost(newId, owner.id, DisplayName(owner), TestImageUrl, Some(TestCaption), now)))
  }
}
