/** The post handlers of the REST layer (backend/routes/posts.js) over an
    in-memory post collection: create, feed, like/unlike toggle, comment. */
module PostRoutes {
  import opened PostSchema
  import opened Likes
  import opened Feed

  /** The authenticated caller, `req.user`, as the auth middleware supplies it. */
  datatype User = User(id: UserId, username: string)

  /** The error responses of the handlers. `SchemaValidation` is the rejection
      of `save()` by the schema's validators, which the catch blocks turn into a 500. */
  datatype Failure = TextOrImageRequired | CommentTextRequired | PostNotFound | SchemaValidation
  {
    function Status(): int {
      match this
      case TextOrImageRequired => 400
      case CommentTextRequired => 400
      case PostNotFound => 404
      case SchemaValidation => 500
    }

    function Message(): string {
      match this
      case TextOrImageRequired => "Text or image is required"
      case CommentTextRequired => "Comment text is required"
      case PostNotFound => "Post not found"
      case SchemaValidation => "Post validation failed"
    }
  }

  datatype Result<T> = Ok(value: T) | Err(failure: Failure)

  /** The create handler up to the write: reject a request with neither text
      nor image, build the document, and let `save()` validate it. */
  function NewPost(id: PostId, user: User, text: Option<string>, imageUrl: Option<string>, now: Time): (r: Result<Post>)
    ensures r == Err(TextOrImageRequired) <==> !Truthy(text) && !Truthy(imageUrl)
    ensures r == Err(SchemaValidation) <==> (Truthy(text) || Truthy(imageUrl)) && user.username == ""
    ensures r.Ok? <==> (Truthy(text) || Truthy(imageUrl)) && user.username != ""
    ensures r.Ok? ==> ValidPost(r.value)
    ensures r.Ok? ==> r.value == Post(id, user.id, user.username, text, imageUrl, [], [], now)
  {
    if !Truthy(text) && !Truthy(imageUrl) then Err(TextOrImageRequired)
    else
      var post := Post(id, user.id, user.username, text, imageUrl, [], [], now);
      if ValidPost(post) then Ok(post) else Err(SchemaValidation)
  }

  /** `post.comments.push(comment)`: exactly one comment at the end, the
      earlier comments and every other field as they were. */
  function WithComment(p: Post, c: Comment): (q: Post)
    ensures |q.comments| == |p.comments| + 1
    ensures q.comments[..|p.comments|] == p.comments && q.comments[|p.comments|] == c
    ensures q.(comments := p.comments) == p
  {
    p.(comments := p.comments + [c])
  }

  /** The comment the handler builds from a truthy `text` passes validation
      exactly when the caller has a user name. */
  lemma HandlerCommentValid(user: User, text: Option<string>, now: Time)
    requires Truthy(text)
    ensures ValidComment(Comment(user.id, user.username, text.value, now)) <==> user.username != ""
  {
  }

  /** A valid comment keeps a valid post valid. */
  lemma CommentKeepsValid(p: Post, c: Comment)
    requires ValidPost(p) && ValidComment(c)
    ensures ValidPost(WithComment(p, c))
  {
  }

  /** Several comments pushed in turn. */
  function WithComments(p: Post, cs: seq<Comment>): Post
    decreases |cs|
  {
    if cs == [] then p else WithComments(WithComment(p, cs[0]), cs[1..])
  }

  /** Comments are append-only: after pushing `cs` in turn the comments are the
      old ones followed by `cs` in insertion order, and nothing else changed. */
  lemma {:induction false} CommentsKeepInsertionOrder(p: Post, cs: seq<Comment>)
    ensures WithComments(p, cs).comments == p.comments + cs
    ensures WithComments(p, cs).(comments := p.comments) == p
    decreases |cs|
  {
    if cs != [] {
      var p' := WithComment(p, cs[0]);
      CommentsKeepInsertionOrder(p', cs[1..]);
      assert p'.comments + cs[1..] == p.comments + cs;
    }
  }

  /** What `Post.find()` yields: the documents of `ids`, in that order. */
  function Documents(ids: seq<PostId>, posts: map<PostId, Post>): (ds: seq<Post>)
    requires forall k :: 0 <= k < |ids| ==> ids[k] in posts
    ensures |ds| == |ids|
    ensures forall k :: 0 <= k < |ids| ==> ds[k] == posts[ids[k]]
  {
    if ids == [] then [] else [posts[ids[0]]] + Documents(ids[1..], posts)
  }

  /** The posts of `ps` are stored posts, each filed under its own id, no two
      alike, and every stored post is among them. */
  ghost predicate EachStoredOnce(ps: seq<Post>, posts: map<PostId, Post>) {
    && (forall k :: 0 <= k < |ps| ==> ps[k].id in posts && posts[ps[k].id] == ps[k])
    && Distinct(ps)
    && (forall id :: id in posts ==> posts[id] in ps)
  }

  /** The documents of a repeat-free list of ids that covers the collection
      hold every stored post once. */
  lemma DocumentsAreStore(ids: seq<PostId>, ds: seq<Post>, posts: map<PostId, Post>)
    requires forall k :: 0 <= k < |ids| ==> ids[k] in posts
    requires forall id :: id in posts ==> id in ids && posts[id].id == id
    requires forall k, m :: 0 <= k < m < |ids| ==> ids[k] != ids[m]
    requires |ds| == |ids| && forall k :: 0 <= k < |ids| ==> ds[k] == posts[ids[k]]
    ensures EachStoredOnce(ds, posts)
  {
  }

  /** The feed of a collection whose natural order lists each id once holds
      every stored post once, newest first. */
  lemma StoreFeed(ids: seq<PostId>, posts: map<PostId, Post>)
    requires forall k :: 0 <= k < |ids| ==> ids[k] in posts
    requires forall id :: id in posts ==> id in ids && posts[id].id == id
    requires forall k, m :: 0 <= k < m < |ids| ==> ids[k] != ids[m]
    ensures var r := SortNewestFirst(Documents(ids, posts));
      && |r| == |ids|
      && EachStoredOnce(r, posts)
      && (forall k, m :: 0 <= k < m < |r| ==> r[k].id != r[m].id)
  {
    var ds := Documents(ids, posts);
    DocumentsAreStore(ids, ds, posts);
    ReorderedStore(ds, SortNewestFirst(ds), posts);
  }

  /** Reordering keeps every stored post exactly once, and then no id occurs twice. */
  lemma ReorderedStore(ds: seq<Post>, r: seq<Post>, posts: map<PostId, Post>)
    requires EachStoredOnce(ds, posts) && multiset(r) == multiset(ds)
    ensures EachStoredOnce(r, posts)
    ensures forall k, m :: 0 <= k < m < |r| ==> r[k].id != r[m].id
  {
    forall k | 0 <= k < |r| ensures r[k].id in posts && posts[r[k].id] == r[k] {
      assert r[k] in multiset(ds);
      var m :| 0 <= m < |ds| && ds[m] == r[k];
    }
    PermutationKeepsDistinct(ds, r);
    forall id | id in posts ensures posts[id] in r {
      assert posts[id] in multiset(ds);
    }
  }

  /** The post collection. `order` is the collection's natural order, in which
      `find()` returns documents; `nextId` is the next fresh `_id`. */
  class PostStore {
    var posts: map<PostId, Post>
    var order: seq<PostId>
    var nextId: PostId

    /** Every stored document passed validation, is filed under its own id,
        and holds at most one like per user; `order` lists each id once. */
    ghost predicate Valid()
      reads this
    {
      && (forall id :: id in posts ==> posts[id].id == id && id < nextId)
      && (forall id :: id in posts ==> ValidPost(posts[id]) && UniqueLikers(posts[id].likes))
      && |order| == |posts|
      && (forall k :: 0 <= k < |order| ==> order[k] in posts)
      && (forall id :: id in posts ==> id in order)
      && (forall k, m :: 0 <= k < m < |order| ==> order[k] != order[m])
    }

    constructor ()
      ensures Valid()
      ensures posts == map[] && order == [] && nextId == 0
    {
      posts := map[];
      order := [];
      nextId := 0;
    }

    /** `POST /`: creates and stores a post, or fails and stores nothing. */
    method Create(user: User, text: Option<string>, imageUrl: Option<string>, now: Time) returns (res: Result<Post>)
      requires Valid()
      modifies this
      ensures Valid()
      ensures res == NewPost(old(nextId), user, text, imageUrl, now)
      ensures res.Ok? ==>
        && res.value.id !in old(posts)
        && posts == old(posts)[res.value.id := res.value]
        && order == old(order) + [res.value.id]
        && nextId == old(nextId) + 1
      ensures res.Err? ==> posts == old(posts) && order == old(order) && nextId == old(nextId)
    {
      if !Truthy(text) && !Truthy(imageUrl) {
        return Err(TextOrImageRequired);
      }
      var post := Post(nextId, user.id, user.username, text, imageUrl, [], [], now);
      if !ValidPost(post) {
        return Err(SchemaValidation);
      }
      posts := posts[nextId := post];
      order := order + [nextId];
      nextId := nextId + 1;
      res := Ok(post);
    }

    /** `GET /`: every stored post exactly once, newest first. */
    function ListFeed(): (r: seq<Post>)
      reads this
      requires Valid()
      ensures NewestFirst(r)
      ensures |r| == |posts|
      ensures EachStoredOnce(r, posts)
      ensures forall k, m :: 0 <= k < m < |r| ==> r[k].id != r[m].id
    {
      StoreFeed(order, posts);
      SortNewestFirst(Documents(order, posts))
    }

    /** `POST /:id/like`: 404 for an unknown post; otherwise the first like of
        the user is spliced out, or a like is pushed when there is none. */
    method ToggleLike(id: PostId, user: User) returns (res: Result<Post>)
      requires Valid()
      modifies this
      ensures Valid()
      ensures order == old(order) && nextId == old(nextId)
      ensures id !in old(posts) ==> res == Err(PostNotFound) && posts == old(posts)
      ensures id in old(posts) ==>
        var p := old(posts)[id];
        var q := p.(likes := ToggledLikes(p.likes, user.id, user.username));
        res == Ok(q) && posts == old(posts)[id := q]
    {
      if id !in posts {
        return Err(PostNotFound);
      }
      var post := posts[id];
      var likeIndex := FindLikeIndex(post.likes, user.id);
      var likes := post.likes;
      if likeIndex > -1 {
        likes := likes[..likeIndex] + likes[likeIndex + 1..];
      } else {
        likes := likes + [Like(user.id, user.username)];
      }
      ToggleKeepsUnique(post.likes, user.id, user.username);
      LikesDoNotAffectValidity(post, likes);
      post := post.(likes := likes);
      posts := posts[id := post];
      res := Ok(post);
    }

    /** `POST /:id/comment`: 400 for empty text, checked before the post is
        looked up; 404 for an unknown post; otherwise one comment is pushed. */
    method AddComment(id: PostId, user: User, text: Option<string>, now: Time) returns (res: Result<Post>)
      requires Valid()
      modifies this
      ensures Valid()
      ensures order == old(order) && nextId == old(nextId)
      ensures !Truthy(text) ==> res == Err(CommentTextRequired) && posts == old(posts)
      ensures Truthy(text) && id !in old(posts) ==> res == Err(PostNotFound) && posts == old(posts)
      ensures Truthy(text) && id in old(posts) && user.username == "" ==>
        res == Err(SchemaValidation) && posts == old(posts)
      ensures Truthy(text) && id in old(posts) && user.username != "" ==>
        var q := WithComment(old(posts)[id], Comment(user.id, user.username, text.value, now));
        res == Ok(q) && posts == old(posts)[id := q]
    {
      if !Truthy(text) {
        return Err(CommentTextRequired);
      }
      if id !in posts {
        return Err(PostNotFound);
      }
      var post := posts[id];
      var comment := Comment(user.id, user.username, text.value, now);
      if !ValidComment(comment) {
        return Err(SchemaValidation);
      }
      CommentKeepsValid(post, comment);
      post := WithComment(post, comment);
      posts := posts[id := post];
      res := Ok(post);
    }
  }
}
