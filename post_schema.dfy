/** The Post and Comment documents of the social feed and the validation
    rules their Mongoose schemas attach to them (backend/models/Post.js). */
module PostSchema {

  datatype Option<+T> = None | Some(value: T)

  /** A Mongo ObjectId of a user, and of a post; opaque values. */
  type UserId = int
  type PostId = int
  /** A `Date`, as milliseconds; always supplied by the caller. */
  type Time = int

  /** One entry of a post's `likes` array. The schema puts no constraint on it. */
  datatype Like = Like(userId: UserId, username: string)

  /** A sub-document of `commentSchema`. */
  datatype Comment = Comment(userId: UserId, username: string, text: string, createdAt: Time)

  /** A document of `postSchema`; `id` is its `_id`. */
  datatype Post = Post(
    id: PostId,
    userId: UserId,
    username: string,
    text: Option<string>,
    imageUrl: Option<string>,
    likes: seq<Like>,
    comments: seq<Comment>,
    createdAt: Time)

  /** JavaScript truthiness of an optional string: `undefined`, `null` and "" are falsy. */
  predicate Truthy(s: Option<string>) {
    s.Some? && s.value != ""
  }

  /** Mongoose's `required` check on a String path: the string is set and not empty. */
  predicate RequiredString(s: string) {
    s != ""
  }

  /** Validation of a comment sub-document: `username` and `text` are required
      (`userId` is an ObjectId that cannot be missing in this model). */
  predicate ValidComment(c: Comment) {
    RequiredString(c.username) && RequiredString(c.text)
  }

  /** Validation of a post document as `save()` runs it: `username` is required,
      `text` is required when `imageUrl` is falsy, `imageUrl` is required when
      `text` is falsy, and every comment must validate. */
  predicate ValidPost(p: Post): (r: bool)
    ensures r <==>
      && p.username != ""
      && (Truthy(p.text) || Truthy(p.imageUrl))
      && (forall i :: 0 <= i < |p.comments| ==> ValidComment(p.comments[i]))
  {
    && RequiredString(p.username)
    && (!Truthy(p.imageUrl) ==> Truthy(p.text))
    && (!Truthy(p.text) ==> Truthy(p.imageUrl))
    && (forall i :: 0 <= i < |p.comments| ==> ValidComment(p.comments[i]))
  }

  /** Validity never depends on the likes: the schema leaves them unconstrained,
      so any two likes lists keep a post valid, duplicates included. */
  lemma LikesDoNotAffectValidity(p: Post, likes: seq<Like>)
    ensures ValidPost(p.(likes := likes)) == ValidPost(p)
  {
  }

  /** A post with neither text nor image fails validation whatever else it holds. */
  lemma NoContentIsInvalid(p: Post)
    requires !Truthy(p.text) && !Truthy(p.imageUrl)
    ensures !ValidPost(p)
  {
  }

  /** Text and image may both be present: with an author name and valid
      comments, such a post validates. */
  lemma TextAndImageIsValid(p: Post)
    requires Truthy(p.text) && Truthy(p.imageUrl)
    requires p.username != ""
    requires forall i :: 0 <= i < |p.comments| ==> ValidComment(p.comments[i])
    ensures ValidPost(p)
  {
  }
}
