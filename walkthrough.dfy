/** A client of the post store: a session of two posts, a like, an unlike and
    a comment, each outcome derived from the handlers' contracts alone. */
module Walkthrough {
  import opened PostSchema
  import opened Likes
  import opened Feed
  import opened PostRoutes

  /** Two posts come back newest first. */
  method FeedSession() {
    var store := new PostStore();
    var author := User(0, "carol");
    var a := store.Create(author, Some("hello"), None, 100);
    assert a == Ok(Post(0, 0, "carol", Some("hello"), None, [], [], 100));
    var feed := store.ListFeed();
    assert feed == [a.value];

    var b := store.Create(author, None, Some("http://x/img.png"), 200);
    assert b.Ok? && b.value.id == 1 && b.value.createdAt == 200;
    assert store.posts[0] == a.value && store.posts[1] == b.value && |store.posts| == 2;
    feed := store.ListFeed();
    assert a.value in feed && b.value in feed;
    NewerFirst(feed, a.value, b.value);
    assert feed == [b.value, a.value];
  }

  /** A newest-first feed of two posts with different timestamps starts with the newer one. */
  lemma NewerFirst(feed: seq<Post>, older: Post, newer: Post)
    requires NewestFirst(feed) && |feed| == 2
    requires older in feed && newer in feed && older.createdAt < newer.createdAt
    ensures feed == [newer, older]
  {
  }

  /** A like and an unlike by the same user cancel out. */
  method LikeSession() {
    var store := new PostStore();
    var a := store.Create(User(0, "carol"), Some("hello"), None, 100);
    assert a.Ok? && a.value.id == 0 && a.value.likes == [];
    var alice := User(1, "Alice");
    var liked := store.ToggleLike(0, alice);
    assert FirstLikeIndex([], 1) == -1;
    assert liked.Ok? && liked.value.likes == [Like(1, "Alice")];
    var unliked := store.ToggleLike(0, alice);
    assert FirstLikeIndex([Like(1, "Alice")], 1) == 0;
    assert unliked.Ok? && unliked.value.likes == [];
  }

  /** A comment is recorded; empty text and empty posts are refused with 400. */
  method CommentSession() {
    var store := new PostStore();
    var a := store.Create(User(0, "carol"), Some("hello"), None, 100);
    assert a.Ok? && a.value.id == 0 && a.value.comments == [];
    var commented := store.AddComment(0, User(2, "Bob"), Some("nice"), 300);
    assert commented.Ok? && commented.value.comments == [Comment(2, "Bob", "nice", 300)];

    var missing := store.AddComment(7, User(2, "Bob"), Some(""), 400);
    assert missing == Err(CommentTextRequired) && missing.failure.Status() == 400;
    var empty := store.Create(User(0, "carol"), Some(""), None, 500);
    assert empty == Err(TextOrImageRequired) && empty.failure.Status() == 400;
    assert |store.posts| == 1;
  }
}
