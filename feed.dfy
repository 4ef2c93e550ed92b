/** Feed ordering: `Post.find().sort({ createdAt: -1 })`
    (backend/routes/posts.js, the `GET /` handler). */
module Feed {
  import opened PostSchema

  /** `createdAt` never increases along the sequence. */
  predicate NewestFirst(ps: seq<Post>) {
    forall i, j :: 0 <= i < j < |ps| ==> ps[i].createdAt >= ps[j].createdAt
  }

  /** No post occurs twice. */
  predicate Distinct(ps: seq<Post>) {
    forall i, j :: 0 <= i < j < |ps| ==> ps[i] != ps[j]
  }

  /** No two posts share a timestamp. */
  predicate DistinctTimes(ps: seq<Post>) {
    forall i, j :: 0 <= i < j < |ps| ==> ps[i].createdAt != ps[j].createdAt
  }

  /** Puts `p` in front of the first post that is not newer than it. */
  function InsertNewestFirst(p: Post, ps: seq<Post>): (r: seq<Post>)
    requires NewestFirst(ps)
    ensures NewestFirst(r)
    ensures multiset(r) == multiset(ps) + multiset{p}
    ensures |r| == |ps| + 1
  {
    if ps == [] then [p]
    else if p.createdAt >= ps[0].createdAt then
      ConsNewestFirst(p, ps);
      [p] + ps
    else
      var rest := InsertNewestFirst(p, ps[1..]);
      assert ps == [ps[0]] + ps[1..];
      BoundedByNewest(rest, ps[1..], p, ps[0].createdAt);
      ConsNewestFirst(ps[0], rest);
      [ps[0]] + rest
  }

  /** A post no older than any post of a newest-first sequence can go in front. */
  lemma ConsNewestFirst(x: Post, s: seq<Post>)
    requires NewestFirst(s)
    requires forall k :: 0 <= k < |s| ==> s[k].createdAt <= x.createdAt
    ensures NewestFirst([x] + s)
  {
  }

  /** A sequence holding the posts of `t` and `x` holds nothing newer than they do. */
  lemma BoundedByNewest(s: seq<Post>, t: seq<Post>, x: Post, bound: Time)
    requires multiset(s) == multiset(t) + multiset{x}
    requires forall k :: 0 <= k < |t| ==> t[k].createdAt <= bound
    requires x.createdAt <= bound
    ensures forall k :: 0 <= k < |s| ==> s[k].createdAt <= bound
  {
    forall k | 0 <= k < |s| ensures s[k].createdAt <= bound {
      assert s[k] in multiset(s);
      if s[k] != x {
        assert s[k] in multiset(t);
        var m :| 0 <= m < |t| && t[m] == s[k];
      }
    }
  }

  /** The feed order. Posts with equal `createdAt` end up in some order that the
      caller must not rely on; the database leaves it open as well. */
  function SortNewestFirst(ps: seq<Post>): (r: seq<Post>)
    ensures NewestFirst(r)
    ensures multiset(r) == multiset(ps)
    ensures |r| == |ps|
  {
    if ps == [] then []
    else
      assert ps == [ps[0]] + ps[1..];
      InsertNewestFirst(ps[0], SortNewestFirst(ps[1..]))
  }

  /** A permutation of a sequence without repeats has no repeats either. */
  lemma {:induction false} PermutationKeepsDistinct(a: seq<Post>, b: seq<Post>)
    requires multiset(a) == multiset(b) && Distinct(a)
    ensures Distinct(b)
  {
    forall i, j | 0 <= i < j < |b| ensures b[i] != b[j] {
      if b[i] == b[j] {
        var x := b[i];
        assert b == b[..i] + [x] + b[i + 1..j] + [x] + b[j + 1..];
        assert multiset(b)[x] >= 2;
        assert multiset(a)[x] >= 2;
        TwiceMeansRepeat(a, x);
        assert false;
      }
    }
  }

  /** An element counted twice in a sequence occurs at two positions. */
  lemma {:induction false} TwiceMeansRepeat(a: seq<Post>, x: Post)
    requires multiset(a)[x] >= 2
    ensures exists i, j :: 0 <= i < j < |a| && a[i] == x && a[j] == x
  {
    assert x in multiset(a);
    var i :| 0 <= i < |a| && a[i] == x;
    assert a == a[..i] + [x] + a[i + 1..];
    assert multiset(a)[x] == multiset(a[..i])[x] + 1 + multiset(a[i + 1..])[x];
    if multiset(a[..i])[x] > 0 {
      assert x in a[..i];
      var k :| 0 <= k < i && a[..i][k] == x;
      assert a[k] == x;
    } else {
      assert x in a[i + 1..];
      var k :| 0 <= k < |a| - i - 1 && a[i + 1..][k] == x;
      assert a[i + 1 + k] == x;
    }
  }

  /** Dropping the newest post keeps the order and the distinct timestamps. */
  lemma TailKeepsOrder(a: seq<Post>)
    requires a != [] && NewestFirst(a)
    ensures NewestFirst(a[1..])
    ensures DistinctTimes(a) ==> DistinctTimes(a[1..])
    ensures multiset(a[1..]) == multiset(a) - multiset{a[0]}
  {
    assert a == [a[0]] + a[1..];
  }

  /** Two newest-first permutations of posts with distinct timestamps start
      with the same post: the newest one. */
  lemma HeadsAgree(a: seq<Post>, b: seq<Post>)
    requires NewestFirst(a) && NewestFirst(b) && multiset(a) == multiset(b)
    requires DistinctTimes(a) && a != []
    ensures b != [] && a[0] == b[0]
  {
    assert a[0] in multiset(b);
    var j :| 0 <= j < |b| && b[j] == a[0];
    assert b[0] in multiset(a);
    var i :| 0 <= i < |a| && a[i] == b[0];
    assert a[0].createdAt >= a[i].createdAt;
    assert b[0].createdAt >= b[j].createdAt;
  }

  /** When no two posts share a timestamp the newest-first order is unique, so
      the feed is fully determined by the stored posts. */
  lemma {:induction false} NewestFirstIsUnique(a: seq<Post>, b: seq<Post>)
    requires NewestFirst(a) && NewestFirst(b) && multiset(a) == multiset(b)
    requires DistinctTimes(a)
    ensures a == b
    decreases |a|
  {
    if a == [] {
      assert |b| == |multiset(b)| == 0;
    } else {
      HeadsAgree(a, b);
      TailKeepsOrder(a);
      TailKeepsOrder(b);
      NewestFirstIsUnique(a[1..], b[1..]);
      assert a == [a[0]] + a[1..];
      assert b == [b[0]] + b[1..];
    }
  }
}
