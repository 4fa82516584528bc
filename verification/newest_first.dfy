/**
 * `orderBy: {createdAt: "desc"}`: the rows of a post query, newest first.
 * The order among posts with equal timestamps is left to the database; this
 * model keeps their table order (the insertion below is stable).
 */
module NewestFirst {
  import opened Store

  ghost predicate Descending(ps: seq<Post>) {
    forall i, j :: 0 <= i < j < |ps| ==> ps[i].createdAt >= ps[j].createdAt
  }

  /** A row not older than any row of a descending sequence may go in front. */
  lemma Prepend(x: Post, ps: seq<Post>)
    requires Descending(ps)
    requires forall y :: y in ps ==> x.createdAt >= y.createdAt
    ensures Descending([x] + ps)
  {
    var r := [x] + ps;
    forall i, j | 0 <= i < j < |r| ensures r[i].createdAt >= r[j].createdAt {
      assert r[j] == ps[j - 1];
      if i > 0 {
        assert r[i] == ps[i - 1];
      }
    }
  }

  /** Inserts `p` in front of the first row that is not newer than it. */
  function Insert(p: Post, sorted: seq<Post>): (r: seq<Post>)
    requires Descending(sorted)
    ensures |r| == |sorted| + 1
    ensures Descending(r)
    ensures multiset(r) == multiset(sorted) + multiset{p}
    decreases |sorted|
  {
    if |sorted| == 0 then [p]
    else if p.createdAt >= sorted[0].createdAt then
      assert forall y :: y in sorted ==> sorted[0].createdAt >= y.createdAt;
      Prepend(p, sorted);
      [p] + sorted
    else
      var head, tail := sorted[0], sorted[1..];
      var rest := Insert(p, tail);
      assert sorted == [head] + tail;
      HeadStaysNewest(head, tail, p, rest);
      Prepend(head, rest);
      [head] + rest
  }

  /** The head of a descending sequence is not older than anything the
      insertion into its tail produces. */
  lemma HeadStaysNewest(head: Post, tail: seq<Post>, p: Post, rest: seq<Post>)
    requires Descending([head] + tail) && head.createdAt >= p.createdAt
    requires multiset(rest) == multiset(tail) + multiset{p}
    ensures forall y :: y in rest ==> head.createdAt >= y.createdAt
  {
    forall y | y in rest ensures head.createdAt >= y.createdAt {
      assert y in multiset(rest);
      if y != p {
        assert y in tail;
        var j :| 0 <= j < |tail| && tail[j] == y;
        var whole := [head] + tail;
        assert whole[0] == head && whole[j + 1] == y;
      }
    }
  }

  /** The rows of `ps`, each exactly once, newest first. */
  function Sort(ps: seq<Post>): (r: seq<Post>)
    ensures |r| == |ps|
    ensures Descending(r)
    ensures multiset(r) == multiset(ps)
    decreases |ps|
  {
    if |ps| == 0 then []
    else
      assert ps == [ps[0]] + ps[1..];
      Insert(ps[0], Sort(ps[1..]))
  }

  /** `where: {userId}`: the rows owned by `userId`, in table order. */
  function OwnedBy(ps: seq<Post>, userId: Id): (r: seq<Post>)
    ensures forall p :: p in r <==> p in ps && p.userId == userId
    ensures forall p :: multiset(r)[p] == if p.userId == userId then multiset(ps)[p] else 0
    decreases |ps|
  {
    if |ps| == 0 then []
    else
      assert ps == [ps[0]] + ps[1..];
      var rest := OwnedBy(ps[1..], userId);
      if ps[0].userId == userId then [ps[0]] + rest else rest
  }
}
