# Post aggregate of the social feed backend, in Dafny

This project models the server side of a small social network's posts: the
Mongoose schemas for a Post and its Comments, and the four Express handlers
that create a post, list the feed, toggle a like, and add a comment. It also
proves what those handlers promise.

- `post_schema.dfy` (module `PostSchema`) holds the documents as datatypes:
  `Post`, `Comment` and `Like`. It also gives the schema's validation rules.
  `text` and `imageUrl` are `Option<string>`, and `Truthy` gives JavaScript
  falsiness: absent and `""` are both falsy. `ValidPost` is what `save()`
  checks: `username` required, `text` required when `imageUrl` is falsy,
  `imageUrl` required when `text` is falsy, and every comment valid. Mongoose's
  `required` on a String also refuses `""`.
- `likes.dfy` (module `Likes`) holds the like toggle. `FirstLikeIndex` is
  what `findIndex` returns, and `FindLikeIndex` is the same scan written as a
  loop. `ToggledLikes` is one toggle: splice out the first match, or push at
  the end. The lemmas cover membership flipping, uniqueness per `userId`, and
  repeated toggles.
- `feed.dfy` (module `Feed`) sorts the feed by `createdAt`, newest first. It
  proves the result is ordered and is a permutation of its input. When no two
  timestamps are equal, the order is unique.
- `post_routes.dfy` (module `PostRoutes`) holds the handlers. `PostStore` is
  a class for the post collection. It has a map from `_id` to document, the
  collection's natural order, and the next fresh id. Its methods `Create`,
  `ToggleLike` and `AddComment` each load, change and save one document, the
  way the handlers do. `ListFeed` is the feed query. Failures are a `Result`
  whose `Failure` carries the HTTP status and message.
- `walkthrough.dfy` (module `Walkthrough`) is a client of the store. It
  replays a session of two posts, a like, an unlike and a comment, and shows
  what a caller can derive from the contracts alone.

Inputs that come from outside the handlers are parameters. They are the
authenticated user (`req.user`), the uploaded image's URL (`req.file.path`),
and the current time (`Date.now`). Post ids come from a counter in the store;
this stands for ObjectId generation, which never repeats an id.

In a few places the code does something other than a reader might expect; the model follows the code:

- Likes are a list, not a set. The schema does not stop one user from liking
  twice; only the toggle keeps one entry per `userId`. The store's invariant
  `Valid()` states this uniqueness, and `ToggleKeepsUnique` preserves it.
- Posts with the same `createdAt` come back in an order the code leaves open.
  The model sorts them in some fixed order, but its contracts promise only
  the ordering and the permutation.
- A document that fails schema validation in `save()` gets status 500 from the
  catch block, not a validation error. Once the handlers' own checks have
  passed, the only such case is an empty `username`. The model returns
  `SchemaValidation` (500) for it and stores nothing.

## Model

| member | source | states |
|---|---|---|
| `PostRoutes.HandlerCommentValid` | backend/models/Post.js:9-16 | the comment the handler builds from truthy text passes the comment schema exactly when the caller's user name is non-empty |
| `PostSchema.ValidPost` | backend/models/Post.js:23-56 | a post validates exactly when `username` is non-empty, at least one of `text` and `imageUrl` is truthy, and every comment validates; the two conditional `required` rules amount to "text or image" |
| `PostSchema.LikesDoNotAffectValidity` | backend/models/Post.js:45-50 | changing the likes list, even adding duplicate users, never changes whether a post validates |
| `PostSchema.NoContentIsInvalid` | backend/models/Post.js:33-44 | a post with neither truthy text nor truthy image is invalid |
| `PostSchema.TextAndImageIsValid` | backend/models/Post.js:33-44 | text and image may both be present: such a post, with an author name and valid comments, validates |
| `PostRoutes.NewPost` | backend/routes/posts.js:29-43 | fails with `TextOrImageRequired` exactly when text and image are both falsy, and with `SchemaValidation` exactly when content is present but the user name is empty. Otherwise it yields a valid post with the user's id and name, the given text and image, no likes, no comments, and `createdAt` equal to the current time |
| `PostRoutes.PostStore.Create` | backend/routes/posts.js:27-48 | the result is `NewPost` at a fresh id; on success exactly that post is added to the collection, and on failure the collection is unchanged; the store invariant is kept |
| `Feed.SortNewestFirst` | backend/routes/posts.js:53 | the result has `createdAt` non-increasing and is a permutation of the input |
| `Feed.NewestFirstIsUnique` | backend/routes/posts.js:53 | two newest-first permutations of posts with distinct timestamps are equal, so with distinct timestamps the feed is determined |
| `PostRoutes.PostStore.ListFeed` | backend/routes/posts.js:51-58 | the feed is newest first and holds every stored post exactly once: as many entries as stored posts, each a stored post, no id twice, and every stored post present |
| `Likes.FirstLikeIndex` | backend/routes/posts.js:66 | -1 exactly when no like has the user's id; otherwise the index of the first like with that id |
| `Likes.FindLikeIndex` | backend/routes/posts.js:66 | the linear scan returns the `findIndex` result exactly |
| `Likes.ToggledLikes` | backend/routes/posts.js:66-74 | when the user has not liked the post, the result is the old list plus `{userId, username}` at the end. Otherwise it is one entry shorter: the entries before the first match are unchanged, and the ones after it shift down one place |
| `Likes.RemovedEntries` | backend/routes/posts.js:68-70 | the unliked list is the old list without its first matching entry, with the others in their relative order |
| `Likes.LikeRecordsLiker` | backend/routes/posts.js:71-74 | on any list, a toggle by a user with no like gives them a like |
| `Likes.ToggleFlipsMembership` | backend/routes/posts.js:66-74 | on a list with one like per user, after one toggle the user is in the likes exactly when they were not before |
| `Likes.DuplicateSurvivesUnlike` | backend/routes/posts.js:66-70 | without uniqueness the flip fails: a user with two likes still has one after unliking |
| `Likes.ToggleKeepsUnique` | backend/routes/posts.js:66-74 | a list with at most one like per user still has at most one after a toggle |
| `Likes.DoubleToggleFromUnliked` | backend/routes/posts.js:66-74 | two toggles starting from "not liked" restore the likes list exactly |
| `Likes.DoubleToggleFromLiked` | backend/routes/posts.js:66-74 | on a list with one like per user, two toggles starting from "liked" move the user's like to the end with the current name; the list comes back as a multiset when the stored name is the current one |
| `Likes.DoubleToggleReorders` | backend/routes/posts.js:66-74 | an example where two toggles from "liked" give a reordered list, not the original |
| `Likes.ToggledTimesFromUnliked` | backend/routes/posts.js:66-74 | from "not liked", an even number of toggles restores the list and an odd number adds exactly the user's like at the end |
| `Likes.ToggledTimesFromLiked` | backend/routes/posts.js:66-74 | from "liked" on a list with one like per user, an odd number of toggles removes the user's like and a positive even number moves it to the end |
| `PostRoutes.PostStore.ToggleLike` | backend/routes/posts.js:61-81 | an unknown id gives `PostNotFound` (404) and leaves the collection unchanged; otherwise the post's likes become `ToggledLikes` of the old likes, no other field or post changes, and the store invariant (one like per user included) is kept |
| `PostRoutes.WithComment` | backend/routes/posts.js:92-96 | pushing a comment adds exactly one comment, at the end; earlier comments, likes and every other field are unchanged |
| `PostRoutes.CommentKeepsValid` | backend/routes/posts.js:92-98 | pushing a valid comment onto a valid post leaves it valid |
| `PostRoutes.CommentsKeepInsertionOrder` | backend/routes/posts.js:92-96 | after N pushes the comments are the old ones followed by the N new ones in insertion order, and nothing else changed |
| `PostRoutes.PostStore.AddComment` | backend/routes/posts.js:84-103 | falsy text gives `CommentTextRequired` (400) even when the post is missing; then an unknown id gives `PostNotFound` (404); an empty user name fails validation (500); each failure leaves the collection unchanged. On success, the post becomes the old post with one comment pushed (the user's id and name, the text, and the current time) |

## Left out

- Image upload: the Cloudinary and multer configuration and storage (backend/routes/posts.js:4-24) are a foreign service. The model takes `imageUrl` as an optional string from the caller.
- Persistence: Mongoose `save`, `find`, `findById` and the database `sort` are a foreign library and I/O. They are replaced by the in-memory `PostStore`. The connection start-up in backend/index.js is not part of this model.
- Store failures: a failing database write or read, which leads to the generic 500 in each catch block, is I/O (the cast error of a malformed id is listed below). Only the schema validation failure is modelled.
- Routing, authentication and HTTP: Express routing and the JSON responses are plumbing. The auth middleware is not part of this model. The authenticated user is a parameter. The 201 or 200 success status is not modelled; `Failure.Status` gives the error statuses.
- Malformed ids: post ids here are always well formed. In the source a path id that is not a valid ObjectId makes `findById` reject with a cast error, which the catch block answers with 500, not 404 (backend/routes/posts.js:63, 89); so `PostNotFound` (404) for an unknown id holds only for well-formed ids.
- Sub-document ids: Mongoose gives every pushed like and comment its own fresh `_id`; `Like` and `Comment` leave it out. So `Likes.DoubleToggleFromLiked`'s multiset equality holds of the `(userId, username)` pairs, not of the stored sub-documents, whose re-pushed like carries a new `_id`.
- Post id lookup: the `req.id || req.params.id` expression is treated as the path id.
- Concurrency: concurrent read-modify-write races between requests are out of scope. Requests run one after another, and each method makes a whole load-change-save step.
- ObjectId: a `userId` is always present in this model. The schema's `required` on `userId` cannot fail here, and `toString()` comparison is plain equality of ids.
- Request body types: `text` is either absent or a string. Other JSON values in the request body are not modelled.
- The frontend (pages, app shell, HTTP client) is UI. Its `isLiked` check tests the same `userId` membership as `Likes.LikedBy`.
