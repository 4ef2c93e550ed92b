/** The like/unlike toggle on a post's `likes` array
    (backend/routes/posts.js, the `/:id/like` handler). */
module Likes {
  import opened PostSchema

  /** The user has an entry in `likes` (matching is by `userId` only). */
  predicate LikedBy(likes: seq<Like>, uid: UserId) {
    exists k :: 0 <= k < |likes| && likes[k].userId == uid
  }

  /** At most one entry per `userId`. The schema does not demand it; the
      toggle keeps it. */
  predicate UniqueLikers(likes: seq<Like>) {
    forall i, j :: 0 <= i < j < |likes| ==> likes[i].userId != likes[j].userId
  }

  /** What `likes.findIndex(like => like.userId == uid)` returns: the index of
      the first matching entry, or -1 when there is none. */
  function FirstLikeIndex(likes: seq<Like>, uid: UserId): (r: int)
    ensures -1 <= r < |likes|
    ensures r == -1 <==> !LikedBy(likes, uid)
    ensures r >= 0 ==> likes[r].userId == uid
    ensures forall k :: 0 <= k < r ==> likes[k].userId != uid
  {
    if |likes| == 0 then -1
    else if likes[0].userId == uid then 0
    else
      var r' := FirstLikeIndex(likes[1..], uid);
      assert forall k :: 1 <= k < |likes| ==> likes[k] == likes[1..][k - 1];
      if r' == -1 then -1 else r' + 1
  }

  /** The scan that `findIndex` performs, as a loop. */
  method FindLikeIndex(likes: seq<Like>, uid: UserId) returns (index: int)
    ensures index == FirstLikeIndex(likes, uid)
  {
    var k := 0;
    while k < |likes|
      invariant 0 <= k <= |likes|
      invariant forall j :: 0 <= j < k ==> likes[j].userId != uid
    {
      if likes[k].userId == uid {
        index := k;
        FirstIndexIsUnique(likes, uid, k);
        return;
      }
      k := k + 1;
    }
    index := -1;
  }

  /** An index holding the user's entry with none before it is the one
      `FirstLikeIndex` reports. */
  lemma FirstIndexIsUnique(likes: seq<Like>, uid: UserId, k: nat)
    requires k < |likes| && likes[k].userId == uid
    requires forall j :: 0 <= j < k ==> likes[j].userId != uid
    ensures FirstLikeIndex(likes, uid) == k
  {
  }

  /** One toggle: splice out the first entry of the user when there is one,
      otherwise push `{userId, username}` onto the end. An existing entry
      keeps its old `username`. */
  function ToggledLikes(likes: seq<Like>, uid: UserId, username: string): (r: seq<Like>)
    ensures !LikedBy(likes, uid) ==> r == likes + [Like(uid, username)]
    ensures LikedBy(likes, uid) ==>
      var i := FirstLikeIndex(likes, uid);
      && |r| == |likes| - 1
      && r[..i] == likes[..i]
      && r[i..] == likes[i + 1..]
  {
    var i := FirstLikeIndex(likes, uid);
    if i > -1 then likes[..i] + likes[i + 1..] else likes + [Like(uid, username)]
  }

  /** Every entry of the unliked list comes from the old one, and only the
      user's first entry is gone. */
  lemma RemovedEntries(likes: seq<Like>, uid: UserId, username: string)
    requires LikedBy(likes, uid)
    ensures var i := FirstLikeIndex(likes, uid); var r := ToggledLikes(likes, uid, username);
      forall k :: 0 <= k < |r| ==> r[k] == likes[if k < i then k else k + 1]
  {
  }

  /** Recording a like: a toggle by a user with no entry gives them one, on any list. */
  lemma LikeRecordsLiker(likes: seq<Like>, uid: UserId, username: string)
    requires !LikedBy(likes, uid)
    ensures LikedBy(ToggledLikes(likes, uid, username), uid)
  {
    assert ToggledLikes(likes, uid, username)[|likes|].userId == uid;
  }

  /** A toggle on a list that has at most one entry per user flips the user's
      membership both ways; only the unlike direction needs the premise
      (see `LikeRecordsLiker` and `DuplicateSurvivesUnlike`). */
  lemma ToggleFlipsMembership(likes: seq<Like>, uid: UserId, username: string)
    requires UniqueLikers(likes)
    ensures LikedBy(ToggledLikes(likes, uid, username), uid) <==> !LikedBy(likes, uid)
  {
    var r := ToggledLikes(likes, uid, username);
    if LikedBy(likes, uid) {
      var i := FirstLikeIndex(likes, uid);
      RemovedEntries(likes, uid, username);
      forall k | 0 <= k < |r| ensures r[k].userId != uid {
        var j := if k < i then k else k + 1;
        assert r[k] == likes[j] && j != i;
        if j < i {
          assert likes[j].userId != likes[i].userId;
        } else {
          assert likes[i].userId != likes[j].userId;
        }
      }
    } else {
      LikeRecordsLiker(likes, uid, username);
    }
  }

  /** Without the uniqueness premise the flip fails: a user with two entries is
      still in the list after unliking. */
  lemma DuplicateSurvivesUnlike()
    ensures var likes := [Like(7, "ann"), Like(7, "ann")];
      LikedBy(likes, 7) && LikedBy(ToggledLikes(likes, 7, "ann"), 7)
  {
    var likes := [Like(7, "ann"), Like(7, "ann")];
    assert likes[0].userId == 7;
    assert FirstLikeIndex(likes, 7) == 0;
    assert ToggledLikes(likes, 7, "ann")[0].userId == 7;
  }

  /** The toggle keeps at most one entry per user. */
  lemma ToggleKeepsUnique(likes: seq<Like>, uid: UserId, username: string)
    requires UniqueLikers(likes)
    ensures UniqueLikers(ToggledLikes(likes, uid, username))
  {
  }

  /** Like then unlike, starting from "not liked", restores `likes` exactly. */
  lemma DoubleToggleFromUnliked(likes: seq<Like>, uid: UserId, username: string)
    requires !LikedBy(likes, uid)
    ensures ToggledLikes(ToggledLikes(likes, uid, username), uid, username) == likes
  {
    var once := likes + [Like(uid, username)];
    assert forall k :: 0 <= k < |likes| ==> once[k] == likes[k];
    FirstIndexIsUnique(once, uid, |likes|);
    assert once[..|likes|] == likes;
  }

  /** Unlike then like, starting from "liked" on a list with one entry per user,
      moves the user's entry to the end with the current `username`; so the likes
      come back as a permutation only when that name is the stored one. */
  lemma DoubleToggleFromLiked(likes: seq<Like>, uid: UserId, username: string)
    requires UniqueLikers(likes) && LikedBy(likes, uid)
    ensures var i := FirstLikeIndex(likes, uid);
      && ToggledLikes(ToggledLikes(likes, uid, username), uid, username)
           == likes[..i] + likes[i + 1..] + [Like(uid, username)]
      && (likes[i].username == username ==>
            multiset(ToggledLikes(ToggledLikes(likes, uid, username), uid, username)) == multiset(likes))
  {
    var i := FirstLikeIndex(likes, uid);
    var once := ToggledLikes(likes, uid, username);
    ToggleFlipsMembership(likes, uid, username);
    assert once == likes[..i] + likes[i + 1..];
    assert ToggledLikes(once, uid, username) == once + [Like(uid, username)];
    if likes[i].username == username {
      SpliceMultiset(likes, i);
    }
  }

  /** Moving one element of a sequence to its end keeps its multiset. */
  lemma SpliceMultiset<T>(s: seq<T>, i: nat)
    requires i < |s|
    ensures multiset(s[..i] + s[i + 1..] + [s[i]]) == multiset(s)
  {
    assert s == s[..i] + [s[i]] + s[i + 1..];
    calc {
      multiset(s);
      multiset(s[..i] + [s[i]] + s[i + 1..]);
      multiset(s[..i]) + multiset{s[i]} + multiset(s[i + 1..]);
    }
  }

  /** Toggling twice from "liked" does not restore the list itself. */
  lemma DoubleToggleReorders()
    ensures var likes := [Like(1, "alice"), Like(2, "bob")];
      ToggledLikes(ToggledLikes(likes, 1, "alice"), 1, "alice") == [Like(2, "bob"), Like(1, "alice")] != likes
  {
    var likes := [Like(1, "alice"), Like(2, "bob")];
    assert FirstLikeIndex(likes, 1) == 0;
    assert ToggledLikes(likes, 1, "alice") == [Like(2, "bob")];
  }

  /** `n` toggles in a row by the same user. */
  function ToggledTimes(likes: seq<Like>, uid: UserId, username: string, n: nat): seq<Like>
    decreases n
  {
    if n == 0 then likes else ToggledTimes(ToggledLikes(likes, uid, username), uid, username, n - 1)
  }

  /** Two more toggles are two toggles applied first. */
  lemma TwoMoreToggles(likes: seq<Like>, uid: UserId, username: string, n: nat)
    ensures ToggledTimes(likes, uid, username, n + 2)
      == ToggledTimes(ToggledLikes(ToggledLikes(likes, uid, username), uid, username), uid, username, n)
  {
  }

  /** Starting from "not liked", an even number of toggles restores `likes`
      and an odd number adds exactly the user's entry at the end. */
  lemma {:induction false} ToggledTimesFromUnliked(likes: seq<Like>, uid: UserId, username: string, k: nat)
    requires !LikedBy(likes, uid)
    ensures ToggledTimes(likes, uid, username, 2 * k) == likes
    ensures ToggledTimes(likes, uid, username, 2 * k + 1) == likes + [Like(uid, username)]
  {
    if k == 0 {
      assert ToggledTimes(likes, uid, username, 1)
        == ToggledTimes(ToggledLikes(likes, uid, username), uid, username, 0);
    } else {
      DoubleToggleFromUnliked(likes, uid, username);
      TwoMoreToggles(likes, uid, username, 2 * k - 2);
      TwoMoreToggles(likes, uid, username, 2 * k - 1);
      ToggledTimesFromUnliked(likes, uid, username, k - 1);
    }
  }

  /** Starting from "liked" on a list with one entry per user, an odd number of
      toggles leaves the list without the user's entry and a positive even
      number leaves it with the entry moved to the end. */
  lemma {:induction false} ToggledTimesFromLiked(likes: seq<Like>, uid: UserId, username: string, k: nat)
    requires UniqueLikers(likes) && LikedBy(likes, uid)
    ensures var i := FirstLikeIndex(likes, uid);
      ToggledTimes(likes, uid, username, 2 * k + 1) == likes[..i] + likes[i + 1..]
    ensures var i := FirstLikeIndex(likes, uid);
      ToggledTimes(likes, uid, username, 2 * k + 2) == likes[..i] + likes[i + 1..] + [Like(uid, username)]
  {
    var once := ToggledLikes(likes, uid, username);
    ToggleFlipsMembership(likes, uid, username);
    ToggledTimesFromUnliked(once, uid, username, k);
    assert ToggledTimes(likes, uid, username, 2 * k + 1) == ToggledTimes(once, uid, username, 2 * k);
    assert ToggledTimes(likes, uid, username, 2 * k + 2) == ToggledTimes(once, uid, username, 2 * k + 1);
  }
}
