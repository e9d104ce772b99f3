/** The document store the controllers share: one collection per model, held in
    natural order, plus the id generator that stands for ObjectId allocation. */
module Database {
  import opened Common
  import opened Queries
  import opened Edges
  import opened Models

  class Store {
    /** `isValidObjectId`, applied by the handlers to route parameters. */
    const validId: Id -> bool

    var users: seq<User>
    var videos: seq<Video>
    var comments: seq<Comment>
    var likes: seq<Like>
    var subscriptions: seq<Subscription>
    var playlists: seq<Playlist>
    var tweets: seq<Tweet>
    /** Every id handed out so far is below `nextId`. */
    var nextId: Id

    /** The invariant every handler keeps: one like per (user, target), one subscription
        per (subscriber, channel), playlist and tweet ids unique and already allocated,
        and no playlist listing a video twice. */
    ghost predicate Valid()
      reads this
    {
      && AtMostOne(likes)
      && AtMostOne(subscriptions)
      && (forall i :: 0 <= i < |playlists| ==> playlists[i].id < nextId && NoDup(playlists[i].videos))
      && (forall i, j :: 0 <= i < j < |playlists| ==> playlists[i].id != playlists[j].id)
      && (forall i :: 0 <= i < |tweets| ==> tweets[i].id < nextId)
      && (forall i, j :: 0 <= i < j < |tweets| ==> tweets[i].id != tweets[j].id)
    }

    /** A store over existing users, videos and comments, with no likes, subscriptions,
        playlists or tweets yet. */
    constructor (validId: Id -> bool, users: seq<User>, videos: seq<Video>, comments: seq<Comment>)
      ensures Valid()
      ensures this.validId == validId
      ensures this.users == users && this.videos == videos && this.comments == comments
      ensures likes == [] && subscriptions == [] && playlists == [] && tweets == []
    {
      this.validId := validId;
      this.users := users;
      this.videos := videos;
      this.comments := comments;
      likes := [];
      subscriptions := [];
      playlists := [];
      tweets := [];
      nextId := 0;
    }

    /** The find-then-delete-or-create step of the like toggles: delete the first like of
        `actor` on `target` if there is one, otherwise create one with a fresh id. */
    method ToggleLikeEdge(actor: Id, target: Target, now: nat) returns (active: bool)
      requires Valid()
      modifies this`likes, this`nextId
      ensures Valid()
      ensures var t := Toggle(old(likes), actor, target, old(nextId), now);
        likes == t.edges && active == t.active
      ensures nextId == if active then old(nextId) + 1 else old(nextId)
    {
      ghost var t := Toggle(likes, actor, target, nextId, now);
      ToggleFlips(likes, actor, target, nextId, now);
      var existing := FindEdge(likes, actor, target);
      if existing.Some? {
        likes := RemoveAt(likes, existing.value);
        active := false;
      } else {
        likes := likes + [Edge(nextId, actor, target, now)];
        nextId := nextId + 1;
        active := true;
      }
      assert likes == t.edges;
    }

    /** The same step for subscriptions of `subscriber` to `channel`. */
    method ToggleSubscriptionEdge(subscriber: Id, channel: Id, now: nat) returns (active: bool)
      requires Valid()
      modifies this`subscriptions, this`nextId
      ensures Valid()
      ensures var t := Toggle(old(subscriptions), subscriber, channel, old(nextId), now);
        subscriptions == t.edges && active == t.active
      ensures nextId == if active then old(nextId) + 1 else old(nextId)
    {
      ghost var t := Toggle(subscriptions, subscriber, channel, nextId, now);
      ToggleFlips(subscriptions, subscriber, channel, nextId, now);
      var existing := FindEdge(subscriptions, subscriber, channel);
      if existing.Some? {
        subscriptions := RemoveAt(subscriptions, existing.value);
        active := false;
      } else {
        subscriptions := subscriptions + [Edge(nextId, subscriber, channel, now)];
        nextId := nextId + 1;
        active := true;
      }
      assert subscriptions == t.edges;
    }
  }
}
