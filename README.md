# Video platform controllers: likes, subscriptions, playlists, tweets, dashboard

This project models the request handlers of a video-sharing back end: five Express
controllers over a MongoDB store. Each handler is modelled on an in-memory store and
both its error paths and its successful outcome are proved.

- **Likes.** A user toggles a like on a video, a comment or a tweet. The handler
  deletes the like if it exists, creates it if not, and re-counts the likes on the
  target. A separate listing returns the videos the user has liked.
- **Subscriptions.** A user toggles a subscription to another user's channel. The
  toggle is guarded by an id check, a self-subscription check and a channel-existence
  check. Two listings follow subscriptions in each direction.
- **Playlists.** The handlers create, list, fetch, delete and update playlists, and add
  a video to a playlist or remove one from it. Every change to an existing playlist is
  reserved to its owner, and the checks run in a fixed order.
- **Tweets.** Content must be non-blank, and its *untrimmed* length must be at most 280
  UTF-16 code units; it is stored trimmed. Updating and deleting are reserved to the
  owner.
- **Dashboard.** Read-only statistics of the caller's channel (videos, summed views,
  likes and comments on its videos, subscribers) and its video list.

Structure:

- `common.dfy`: ids, `Option`, the response envelope (`Ok(status, data, message)` for
  an `ApiResponse`, `Err(status, message)` for a thrown `ApiError`), the status codes,
  and JavaScript truthiness of a body field.
- `text.dfy`: `String.prototype.trim` over the ECMAScript whitespace set, and
  `length` in UTF-16 code units.
- `queries.dfy`: `findOne`, `countDocuments`, `find` and
  `find(...).sort({ createdAt: -1 })` over a collection held as a sequence in natural
  order.
- `edges.dfy`: the record shared by likes and subscriptions, an edge from an actor to a
  target, and the toggle both controllers perform on it, with its laws.
- `models.dfy`: the documents, plus lookup by id and population.
- `database.dfy`: the store, a class with one field per collection. Its invariant
  `Valid` says:
  - there is at most one like per (user, target) and at most one subscription per
    (subscriber, channel);
  - playlist and tweet ids are unique and already allocated;
  - no playlist lists a video twice.
- `likes.dfy`, `subscriptions.dfy`, `playlists.dfy`, `tweets.dfy`, `dashboard.dfy`: one
  module per controller. Handlers that write become module-level methods that take the
  store (`db: Store`) and are framed to the collections they touch; read-only handlers
  become functions of the collections.

Notes on the modelled behaviour:

- For playlists, `createPlaylist` and `updatePlaylist` test the raw field for
  truthiness before trimming it. A whitespace-only name or description therefore passes
  the controller's check, and the controller hands `""` to the store. The model stores
  it; whether the Playlist schema's validators would refuse it is not modelled
  (`CreatePlaylist`, `UpdatePlaylist`). For tweets, the content is tested after
  trimming (`CheckContent`).
- The like toggles only check that the id is well formed, not that the video, comment
  or tweet exists. The model does the same.
- A like or subscription toggled twice gets back the same set of (actor, target) pairs.
  The collection itself is identical again only if the edge was absent at first
  (`Edges.ToggleTwice`).

## Model

| member | source | states |
|---|---|---|
| Text.IsJsSpace | src/controllers/tweet.controller.js:15-25 | the characters `trim` removes: space, tab, line feed and carriage return among them, no letter or digit, and each a single UTF-16 code unit |
| Text.Trim | src/controllers/tweet.controller.js:15-25 | the result is `s` with its leading and trailing ECMAScript whitespace cut off: a contiguous slice, empty exactly when `s` is all whitespace, otherwise starting and ending with a non-space |
| Text.TrimIdempotent | src/controllers/tweet.controller.js:25 | trimming an already trimmed string changes nothing |
| Text.TrimShortens | src/controllers/tweet.controller.js:20-25 | the trimmed string is never longer, in UTF-16 code units, than the input |
| Text.Utf16Length | src/controllers/tweet.controller.js:20 | JavaScript `length` lies between the number of code points and twice that |
| Text.Utf16LengthAppend | src/controllers/tweet.controller.js:20 | the UTF-16 length of a concatenation is the sum of the lengths |
| Text.Utf16LengthOfBmp | src/controllers/tweet.controller.js:20 | for text inside the Basic Multilingual Plane, `length` is the number of characters |
| Common.Truthy | src/controllers/playlist.controller.js:14 | `!field` is false exactly for a missing field and the empty string; any other string is truthy |
| Queries.FirstIndex | src/controllers/like.controller.js:19-22 | `findOne`: the first matching position, and none exactly when nothing matches |
| Queries.Count | src/controllers/like.controller.js:37 | `countDocuments`: at most the collection size, and zero exactly when nothing matches |
| Queries.CountAppend | src/controllers/like.controller.js:30-37 | counting distributes over concatenation |
| Queries.CountSame | src/controllers/dashboard.controller.js:37-43 | two filters that agree on every document count the same |
| Queries.Select | src/controllers/tweet.controller.js:51 | `find`: each document kept as many times as stored exactly when it matches, others dropped; a document is in the result exactly when it is stored and matches; length equals the count |
| Queries.SelectAppend | src/controllers/playlist.controller.js:127-129 | filtering distributes over concatenation, so relative order is kept |
| Queries.SelectAll | src/controllers/playlist.controller.js:127-129 | a filter that keeps every document returns the collection unchanged |
| Queries.SelectKeepsNoDup | src/controllers/playlist.controller.js:127-129 | filtering a duplicate-free list leaves it duplicate-free |
| Queries.ConsNoDup | src/controllers/playlist.controller.js:127-129 | a list stays duplicate-free when an element it lacks is put in front |
| Queries.ConsNewestFirst | src/controllers/tweet.controller.js:52 | an element no older than the head of a newest-first list may go in front |
| Queries.InsertByKey | src/controllers/tweet.controller.js:52 | inserting into a newest-first list keeps it newest first and adds exactly the new element |
| Queries.SortByKey | src/controllers/tweet.controller.js:52 | `sort({ createdAt: -1 })`: newest first and a permutation of the input |
| Queries.Query | src/controllers/tweet.controller.js:51-52 | `find(filter).sort({ createdAt: -1 })`: exactly the matching documents with their multiplicities, newest first; a document is listed exactly when it is stored and matches |
| Edges.TargetCount | src/controllers/like.controller.js:37 | `countDocuments({ <target>: id })`: at most the collection size, and zero exactly when no edge points at the target |
| Edges.Toggle | src/controllers/like.controller.js:19-35 | find then delete or create: it reports a creation exactly when no edge joined the actor to the target, then appends exactly the new edge; a deletion makes the collection one shorter |
| Edges.FindEdge | src/controllers/like.controller.js:19-22 | the first edge joining the actor to the target; none exactly when no such edge exists |
| Edges.TargetCountIsCount | src/controllers/subscription.controller.js:49-51 | any filter selecting exactly the edges on a target counts the same as the target count |
| Edges.Pairs | src/controllers/like.controller.js:26-35 | the (actor, target) multiset has one entry per edge |
| Edges.Actors | src/controllers/subscription.controller.js:73-79 | an actor is in the set exactly when some edge joins it to the target |
| Edges.RemoveAt | src/controllers/like.controller.js:27 | `deleteOne` on a found document: one element shorter, the elements before unmoved, the ones after shifted down by one |
| Edges.Split | src/controllers/like.controller.js:27 | a collection is its prefix, the element and its suffix, and removal drops exactly the element |
| Edges.ToggleReportsFlip | src/controllers/like.controller.js:26-35 | the reported `isLiked`/`isSubscribed` is true exactly when the edge did not exist |
| Edges.ToggleChangesOneEdge | src/controllers/like.controller.js:26-35 | a toggle adds or removes exactly one (actor, target) pair and no other pair |
| Edges.ToggleKeepsOthers | src/controllers/like.controller.js:26-35 | every edge not joining the actor to the target survives a toggle, in the same order |
| Edges.OthersAppend | src/controllers/like.controller.js:30-33 | the untouched edges of a concatenation are those of its parts; a single joining edge has none |
| Edges.ToggleCount | src/controllers/like.controller.js:37 | after a toggle the count on the target is one more if the edge was created and one less if it was deleted |
| Edges.ToggleKeepsOtherCounts | src/controllers/like.controller.js:60-76 | the count on any other target is unchanged by a toggle |
| Edges.ToggleCountWhere | src/controllers/dashboard.controller.js:37-39 | for any filter deciding an edge by its target, a toggle moves the filtered count by one exactly when the filter accepts the toggled target |
| Edges.ToggleFlips | src/controllers/subscription.controller.js:31-47 | under at-most-one-edge-per-pair the toggle flips membership of the edge and keeps the invariant |
| Edges.PairsRemoveAt | src/controllers/like.controller.js:27 | removing a found edge takes exactly its (actor, target) pair out of the pair multiset |
| Edges.ToggleLaws | src/controllers/like.controller.js:26-37 | under at-most-one-edge-per-pair a toggle keeps that invariant, flips the edge, reports the new state, keeps every other edge and moves the target count by one |
| Edges.CreateThenDelete | src/controllers/like.controller.js:26-35 | creating an absent edge and toggling again gives back the original collection |
| Edges.ToggleTwice | src/controllers/like.controller.js:26-35 | toggling twice reports opposite states and restores the pairs, the untouched edges and the target count, and the collection itself when the edge was absent |
| Edges.PairsAppend | src/controllers/like.controller.js:30-33 | the pair multiset of a concatenation is the sum of the parts' |
| Edges.CountIsActors | src/controllers/subscription.controller.js:49-51 | under at-most-one-edge-per-pair the count on a target is the number of distinct actors on it |
| Models.FindUser | src/controllers/subscription.controller.js:26-29 | `User.findById`: a user with that id from the collection, none exactly when no user has it |
| Models.FindVideo | src/controllers/like.controller.js:141-144 | a video with that id from the collection, none exactly when no video has it |
| Models.Populate | src/controllers/like.controller.js:141-149 | populated videos come from the collection and from the references; every resolvable reference contributes its video; unresolved ones are dropped |
| Models.Resolved | src/controllers/like.controller.js:141-149 | one reference populates to at most one video: the video with that id when it exists, nothing otherwise |
| Models.PopulateOne | src/controllers/playlist.controller.js:61-62 | a single reference populates to `Resolved` |
| Models.PopulateAppend | src/controllers/playlist.controller.js:43 | population of a concatenation is the concatenation of the populations, so the videos follow the references' order, one per resolvable reference |
| Models.FindPlaylist | src/controllers/playlist.controller.js:84-88 | `Playlist.findById`: the first position holding that id, none exactly when no playlist has it |
| Models.FindTweet | src/controllers/tweet.controller.js:80-84 | `Tweet.findById`: the first position holding that id, none exactly when no tweet has it |
| Database.Store.ToggleLikeEdge | src/controllers/like.controller.js:19-35 | the `findOne` then `deleteOne` or `create` on the likes: the collection becomes the toggled one, the reported state is the toggle's, an id is allocated only on creation, and the store invariant is kept |
| Database.Store.ToggleSubscriptionEdge | src/controllers/subscription.controller.js:31-47 | the same on the subscriptions |
| Likes.TargetOf | src/controllers/like.controller.js:19-22 | the like's target carries the route's id, and it is a video, comment or tweet target exactly when the route is the video, comment or tweet route |
| Likes.ToggleLike | src/controllers/like.controller.js:11-128 | malformed id: 400 with the route's message and no change; otherwise the collection is the toggled one, membership flips, no other like changes, at most one like per pair is kept, `totalLikes` is the new count on the target (moved by one), an id is allocated exactly when a like is created, and `isLiked` the new membership |
| Likes.FlipLike | src/controllers/like.controller.js:19-37 | the part after the id check: the likes become the toggled collection and membership flips; no other like changes; `totalLikes` moves by one; an id is allocated exactly on creation; `isLiked` is the new state |
| Likes.UserVideoLikes | src/controllers/like.controller.js:137-145 | exactly the caller's likes that point at a video, with multiplicities, newest first |
| Likes.VideoRefs | src/controllers/like.controller.js:148 | one video reference per like, in the same order |
| Likes.LikedRefs | src/controllers/like.controller.js:137-148 | every listed reference is a video the caller likes, and every video like of the caller contributes its reference |
| Likes.TargetsLikedBy | src/controllers/like.controller.js:137-140 | a target is in the set exactly when the caller has a like on it |
| Likes.GetLikedVideos | src/controllers/like.controller.js:134-158 | 200; the data is `Populate` over the caller's video likes newest first, so every returned video exists and is liked by the caller, every liked video that still exists is returned, and the order is the likes' order |
| Subscriptions.ToggleSubscription | src/controllers/subscription.controller.js:12-60 | 400 for a malformed id, then 400 for subscribing to oneself, then 404 for an unknown channel, each with no change; otherwise the edge is toggled, membership flips, other subscriptions stay, `isSubscribed` is the new membership, `subscribersCount` the new count on the channel (moved by one), and an id is allocated exactly when a subscription is created |
| Subscriptions.FlipSubscription | src/controllers/subscription.controller.js:31-59 | the part after the guards: the subscriptions become the toggled collection and membership flips; no other subscription changes; the count moves by one; an id is allocated exactly on creation |
| Subscriptions.ChannelSubscriptions | src/controllers/subscription.controller.js:73-77 | exactly the subscriptions to the channel, newest first, as many as the channel's subscription count |
| Subscriptions.UserSubscriptions | src/controllers/subscription.controller.js:101-105 | exactly the subscriptions of the user, newest first |
| Subscriptions.GetUserChannelSubscribers | src/controllers/subscription.controller.js:66-88 | 400 exactly for a malformed id; otherwise one entry per subscription to the channel, each the populated subscriber |
| Subscriptions.GetSubscribedChannels | src/controllers/subscription.controller.js:94-116 | 400 exactly for a malformed id; otherwise one entry per subscription of the user, each the populated channel |
| Subscriptions.SubscribersAreSubscribed | src/controllers/subscription.controller.js:73-79 | every listed subscriber is an existing user holding a subscription to the channel |
| Subscriptions.SubscribedAreListed | src/controllers/subscription.controller.js:73-79 | every subscription to the channel puts its subscriber in the list |
| Playlists.Without | src/controllers/playlist.controller.js:127-129 | every occurrence of the video is gone and every other id keeps its multiplicity |
| Playlists.WithoutAppend | src/controllers/playlist.controller.js:127-129 | removal keeps the relative order of the remaining videos |
| Playlists.WithoutAbsent | src/controllers/playlist.controller.js:127-129 | removing an absent video leaves the list as it was, so it is not an error |
| Playlists.AddThenRemove | src/controllers/playlist.controller.js:94-129 | appending an absent video and removing it restores the list |
| Playlists.AddKeepsNoDup | src/controllers/playlist.controller.js:94-98 | appending a video not yet listed keeps the list duplicate-free |
| Playlists.RemoveKeepsNoDup | src/controllers/playlist.controller.js:127-129 | removal keeps the list duplicate-free |
| Playlists.Authorize | src/controllers/playlist.controller.js:84-92 | 404 exactly when no playlist has the id; 403 only when a playlist with the id belongs to someone else; access granted only to the owner's playlist with that id |
| Playlists.AuthorizeOwnerOnly | src/controllers/playlist.controller.js:84-92 | with unique ids and the playlist present, access is granted exactly to its owner, and anyone else gets 403 |
| Playlists.CreatePlaylist | src/controllers/playlist.controller.js:11-28 | a missing or empty name or description gives 400 and no change; otherwise 201 and one new playlist with a fresh id, the trimmed fields, the caller as owner and no videos |
| Playlists.OwnedPlaylists | src/controllers/playlist.controller.js:41-42 | exactly the user's playlists, newest first |
| Playlists.View | src/controllers/playlist.controller.js:61-62 | the playlist itself with its video references resolved by `Populate` |
| Playlists.Views | src/controllers/playlist.controller.js:41-43 | one populated entry per playlist, in the same order, each holding that playlist |
| Playlists.GetUserPlaylists | src/controllers/playlist.controller.js:34-48 | 400 exactly for a malformed id; otherwise the user's playlists in `OwnedPlaylists` order, each populated |
| Playlists.UserPlaylistsAreTheirs | src/controllers/playlist.controller.js:41-43 | every listed playlist is the user's, the list is newest first, and every playlist of the user is listed populated |
| Playlists.OwnedPlaylistsListed | src/controllers/playlist.controller.js:41-42 | every entry of the list is a stored playlist of the user, and every such playlist has a position in it |
| Playlists.ViewsOfListed | src/controllers/playlist.controller.js:41-43 | populating a newest-first listing of the user's playlists keeps the owner, the order, and an entry for each of them |
| Playlists.GetPlaylistById | src/controllers/playlist.controller.js:54-71 | 400 for a malformed id; 404 exactly when no playlist has it; otherwise that playlist with its videos populated |
| Playlists.AddVideoToPlaylist | src/controllers/playlist.controller.js:77-104 | 400 invalid ids, then 404, then 403 for a non-owner, then 400 for a video already listed, each with no change; otherwise only that playlist changes, by appending the video, and the store invariant holds |
| Playlists.RemoveVideoFromPlaylist | src/controllers/playlist.controller.js:110-136 | 400, 404, 403 in that order with no change; otherwise only that playlist changes, to its list without the video |
| Playlists.DeletePlaylist | src/controllers/playlist.controller.js:142-164 | 400, 404, 403 in that order with no change; otherwise the playlist is removed and no playlist keeps the id |
| Playlists.Updated | src/controllers/playlist.controller.js:188-189 | a truthy supplied value replaces the field trimmed, so a whitespace-only one leaves `""`; a missing or empty one keeps the old value |
| Playlists.UpdatePlaylist | src/controllers/playlist.controller.js:170-196 | 400, 404, 403 in that order with no change; otherwise only that playlist changes, and only a supplied non-empty name or description, trimmed; owner, id and videos stay |
| Playlists.AuthorizeAfterEdit | src/controllers/playlist.controller.js:84-129 | editing the granted playlist without touching its id or owner keeps access granted to the same position |
| Playlists.AddedThenRemoved | src/controllers/playlist.controller.js:84-129 | after adding an absent video the playlist is still granted, and removing the video gives back the original collection |
| Playlists.AddThenRemoveRestores | src/controllers/playlist.controller.js:77-136 | a successful add followed by a remove leaves the playlist collection as it was |
| Tweets.CheckContent | src/controllers/tweet.controller.js:15-22 | content is accepted exactly when present, not blank and at most 280 code units untrimmed; the blank case gives the handler's message, the long case the length message; accepted content is the trimmed input, non-empty, at most 280 code units, without edge whitespace |
| Tweets.LimitCountsPadding | src/controllers/tweet.controller.js:20-22 | a letter followed by 280 spaces is refused as too long, although its trimmed form is one character |
| Tweets.CreateTweet | src/controllers/tweet.controller.js:12-32 | refused content gives 400 and no change; otherwise 201 and one new tweet with a fresh id, the trimmed content and the caller as owner |
| Tweets.OwnedTweets | src/controllers/tweet.controller.js:51-52 | exactly the user's tweets, newest first |
| Tweets.WithOwner | src/controllers/tweet.controller.js:51-53 | one entry per tweet, in the same order, each with the given user as owner |
| Tweets.GetUserTweets | src/controllers/tweet.controller.js:38-58 | 400 for a malformed id, 404 for an unknown user, otherwise the user's tweets in `OwnedTweets` order, each with that user record as owner |
| Tweets.UserTweetsAreTheirs | src/controllers/tweet.controller.js:51-53 | every listed tweet is the user's and stored, the list is newest first, and every tweet of the user is listed |
| Tweets.OwnedTweetsListed | src/controllers/tweet.controller.js:51-52 | every entry of the list is a stored tweet of the user, and every such tweet has a position in it |
| Tweets.UpdateTweet | src/controllers/tweet.controller.js:64-97 | 400 id, then 400 content, then 404, then 403, each with no change; otherwise only that tweet changes, and only its content, to the trimmed input |
| Tweets.DeleteTweet | src/controllers/tweet.controller.js:103-126 | 400, 404, 403 in that order with no change; otherwise the tweet is removed and no tweet keeps the id |
| Dashboard.VideoIds | src/controllers/dashboard.controller.js:21 | one id per video, and an id is listed exactly when one of the videos has it |
| Dashboard.ChannelVideoIds | src/controllers/dashboard.controller.js:17-21 | an id is listed exactly when the channel owns a video with it, one per owned video |
| Dashboard.SumViews | src/controllers/dashboard.controller.js:34 | `$sum` of `views`: no counted video has more views than the sum, and the sum is zero exactly when every counted video has zero views |
| Dashboard.ViewsOrZero | src/controllers/dashboard.controller.js:55 | `totalViews[0]?.views \|\| 0`: 0 when the aggregation returned no group, otherwise the group's sum |
| Dashboard.LikeOnAnyOf | src/controllers/dashboard.controller.js:37-39 | the `$in` filter on likes accepts exactly the likes on a video whose id is listed |
| Dashboard.CommentOnAnyOf | src/controllers/dashboard.controller.js:41-43 | the `$in` filter on comments accepts exactly the comments on a video whose id is listed |
| Dashboard.AggregateViews | src/controllers/dashboard.controller.js:32-35 | at most one group; none exactly when the channel owns no video; otherwise the sum of its videos' views |
| Dashboard.LikesOnIdsAreOwned | src/controllers/dashboard.controller.js:17-39 | the `$in` filter over the collected ids counts exactly the likes on a video the channel owns |
| Dashboard.CommentsOnIdsAreOwned | src/controllers/dashboard.controller.js:17-43 | the `$in` filter over the collected ids counts exactly the comments on a video the channel owns |
| Dashboard.NoOwnedNoCount | src/controllers/dashboard.controller.js:30 | a channel without videos counts none |
| Dashboard.TotalViews | src/controllers/dashboard.controller.js:32-55 | the summed views of the channel's videos, and 0 when it has none |
| Dashboard.TotalLikes | src/controllers/dashboard.controller.js:37-39 | the number of likes whose video the channel owns |
| Dashboard.TotalComments | src/controllers/dashboard.controller.js:41-43 | the number of comments whose video the channel owns |
| Dashboard.GetChannelStats | src/controllers/dashboard.controller.js:14-63 | 200; owned video count; summed views (0 without videos); likes and comments on owned videos only; subscriptions to the channel |
| Dashboard.GetChannelVideos | src/controllers/dashboard.controller.js:69-85 | 200; exactly the channel's videos with their multiplicities, newest first |
| Dashboard.StatsCountListedVideos | src/controllers/dashboard.controller.js:30-76 | `totalVideos` equals the length of the channel's video list |
| Dashboard.StatsCountListedSubscribers | src/controllers/dashboard.controller.js:45-47 | `subscribers` equals the length of the channel's subscriber list |
| Dashboard.ToggleLikeMovesTotal | src/controllers/dashboard.controller.js:37-39 | a like toggle moves `totalLikes` by one exactly when it targets a video the channel owns, and leaves it unchanged otherwise |

## Left out

- Identifiers are modelled as naturals, and a route parameter that passes the ObjectId
  check is taken to be the canonical lowercase 24-hex spelling of that id. The source
  compares some ids as text, and a non-canonical spelling (upper-case hex) breaks those
  comparisons in ways the model does not show: subscribing to oneself is not refused
  (src/controllers/subscription.controller.js:21); adding a video already in a playlist
  appends it again, so the playlist's no-duplicates invariant fails
  (src/controllers/playlist.controller.js:94); and removing a video removes nothing
  (src/controllers/playlist.controller.js:127-128).
- Text.Utf16Length: a Dafny string cannot hold a lone surrogate, which JavaScript's
  `length` counts as one unit; such strings are outside the model.
- Concurrency: the `Promise.all` of the dashboard is read as five sequential queries. The race between `findOne` and `create` in the toggles is not modelled, because the model is single-threaded.
- Express and Mongoose plumbing: `asyncHandler`, `res.status().json`, `.lean()`, `.select()` and the field lists given to `populate`. Handlers return whole records and a response datatype instead. Database failures (500 responses) are not modelled.
- `isValidObjectId` is a library predicate, so it is a parameter (`Store.validId`, or `valid`) of the handlers and is never interpreted.
- ObjectId allocation is a counter (`nextId`). The creation timestamp is a parameter (`now`), because it comes from the clock.
- Ties in `sort({ createdAt: -1 })`: the model's insertion sort orders equal timestamps one fixed way. The contracts state only the newest-first order and the multiset, which MongoDB also promises.
- Request-body fields that are not strings (numbers, objects) are not modelled; fields are optional strings. Comparing `owner.toString()` with `req.user._id.toString()` is modelled as id equality.
- Edges.ToggleTwice: the collection is restored exactly only when the edge was absent. When it was present, the re-created edge gets a fresh id and time and goes at the end, so only the pairs, the other edges and the counts come back.
- Tweets.GetUserTweets: the populated owner of each tweet is the looked-up user record. Population of other fields is not modelled.
- The login, logout and refresh-token routes named in `src/routes/user.routes.js` have no handlers in the repository. No session or token service is modelled.
- `src/controllers/user.controller.js` is not part of this model. It is a registration flow built on file uploads and foreign SDKs, and it does not run as written.
- `src/utils/cloudinary.js`, `src/utils/imagekit.js`, `src/index.js`, `src/routes/user.routes.js` and `src/controllers/healthcheck.controller.js` are not part of this model. They contain upload SDKs, server start-up, routing, and process uptime and clock readings.
- The Like, Subscription, Comment, Playlist, Tweet and User schema files are not part of this model. Their shapes are taken from the fields the controllers query.
- `src/models/vedio.model.js` declares no `views` field. `views` is a natural number, where 0 stands for a document without the field. `duration` is kept as a real number and never computed with.
