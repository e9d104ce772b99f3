/** The subscription controller: toggling a subscription to a channel, and listing the
    subscribers of a channel and the channels of a subscriber. */
module Subscriptions {
  import opened Common
  import opened Queries
  import opened Edges
  import opened Models
  import opened Database

  datatype SubscriptionToggled = SubscriptionToggled(isSubscribed: bool, subscribersCount: nat)

  predicate UserExists(users: seq<User>, id: Id) {
    exists u :: u in users && u.id == id
  }

  /** `toggleSubscription`. The guards run in order: malformed channel id (400),
      subscribing to oneself (400), unknown channel (404); each leaves the store as it
      was. Otherwise the (subscriber, channel) edge is flipped and re-counted. */
  method ToggleSubscription(db: Store, subscriber: Id, channelId: Id, now: nat) returns (r: Response<SubscriptionToggled>)
    requires db.Valid()
    modifies db`subscriptions, db`nextId
    ensures db.Valid()
    ensures !db.validId(channelId) ==>
      r == Err(StatusBadRequest, "Invalid channel ID")
    ensures db.validId(channelId) && channelId == subscriber ==>
      r == Err(StatusBadRequest, "You cannot subscribe to yourself")
    ensures db.validId(channelId) && channelId != subscriber && !UserExists(db.users, channelId) ==>
      r == Err(StatusNotFound, "Channel not found")
    ensures r.Err? ==> db.subscriptions == old(db.subscriptions) && db.nextId == old(db.nextId)
    ensures db.validId(channelId) && channelId != subscriber && UserExists(db.users, channelId) ==>
      var t := Toggle(old(db.subscriptions), subscriber, channelId, old(db.nextId), now);
      && db.subscriptions == t.edges
      && (t.active <==> HasEdge(db.subscriptions, subscriber, channelId))
      && (t.active <==> !HasEdge(old(db.subscriptions), subscriber, channelId))
      && Others(db.subscriptions, subscriber, channelId) == Others(old(db.subscriptions), subscriber, channelId)
      && TargetCount(db.subscriptions, channelId) ==
           (if t.active then TargetCount(old(db.subscriptions), channelId) + 1
            else TargetCount(old(db.subscriptions), channelId) - 1)
      && db.nextId == (if t.active then old(db.nextId) + 1 else old(db.nextId))
      && r == Ok(StatusOk, SubscriptionToggled(t.active, TargetCount(db.subscriptions, channelId)),
                 "Subscription toggled successfully")
  {
    if !db.validId(channelId) {
      return Err(StatusBadRequest, "Invalid channel ID");
    }
    if channelId == subscriber {
      return Err(StatusBadRequest, "You cannot subscribe to yourself");
    }
    var channel := FindUser(db.users, channelId);
    if channel.None? {
      return Err(StatusNotFound, "Channel not found");
    }
    r := FlipSubscription(db, subscriber, channelId, now);
  }

  /** The part of `toggleSubscription` after its guards: the edge is flipped, the
      subscriptions to the channel are re-counted, and nothing else changes. */
  method FlipSubscription(db: Store, subscriber: Id, channelId: Id, now: nat) returns (r: Response<SubscriptionToggled>)
    requires db.Valid()
    modifies db`subscriptions, db`nextId
    ensures db.Valid()
    ensures
      var t := Toggle(old(db.subscriptions), subscriber, channelId, old(db.nextId), now);
      && db.subscriptions == t.edges
      && (t.active <==> HasEdge(db.subscriptions, subscriber, channelId))
      && (t.active <==> !HasEdge(old(db.subscriptions), subscriber, channelId))
      && Others(db.subscriptions, subscriber, channelId) == Others(old(db.subscriptions), subscriber, channelId)
      && TargetCount(db.subscriptions, channelId) ==
           (if t.active then TargetCount(old(db.subscriptions), channelId) + 1
            else TargetCount(old(db.subscriptions), channelId) - 1)
      && db.nextId == (if t.active then old(db.nextId) + 1 else old(db.nextId))
      && r == Ok(StatusOk, SubscriptionToggled(t.active, TargetCount(db.subscriptions, channelId)),
                 "Subscription toggled successfully")
  {
    ToggleLaws(db.subscriptions, subscriber, channelId, db.nextId, now);
    var isSubscribed := db.ToggleSubscriptionEdge(subscriber, channelId, now);
    var subscribersCount := TargetCount(db.subscriptions, channelId);
    r := Ok(StatusOk, SubscriptionToggled(isSubscribed, subscribersCount), "Subscription toggled successfully");
  }

  /** `Subscription.find({ Channel: channel }).sort({ createdAt: -1 })`. */
  function ChannelSubscriptions(subs: seq<Subscription>, channel: Id): (r: seq<Subscription>)
    ensures forall e :: multiset(r)[e] == if e.target == channel then multiset(subs)[e] else 0
    ensures forall e :: e in r <==> e in subs && e.target == channel
    ensures forall i, j :: 0 <= i < j < |r| ==> r[i].createdAt >= r[j].createdAt
    ensures |r| == TargetCount(subs, channel)
  {
    var p := (e: Subscription) => e.target == channel;
    var q := Query(subs, p, (e: Subscription) => e.createdAt);
    assert NewestFirst(q, (e: Subscription) => e.createdAt);
    TargetCountIsCount(subs, channel, p);
    q
  }

  /** `Subscription.find({ subscriber: user }).sort({ createdAt: -1 })`. */
  function UserSubscriptions(subs: seq<Subscription>, user: Id): (r: seq<Subscription>)
    ensures forall e :: multiset(r)[e] == if e.actor == user then multiset(subs)[e] else 0
    ensures forall e :: e in r <==> e in subs && e.actor == user
    ensures forall i, j :: 0 <= i < j < |r| ==> r[i].createdAt >= r[j].createdAt
  {
    var q := Query(subs, (e: Subscription) => e.actor == user, (e: Subscription) => e.createdAt);
    assert NewestFirst(q, (e: Subscription) => e.createdAt);
    q
  }

  /** `getUserChannelSubscribers`: one entry per subscription to the channel, newest
      first, each the populated subscriber (`None` when the user no longer exists). */
  function GetUserChannelSubscribers(valid: Id -> bool, subs: seq<Subscription>, users: seq<User>, channelId: Id)
    : (r: Response<seq<Option<User>>>)
    ensures !valid(channelId) <==> r.Err?
    ensures r.Err? ==> r == Err(StatusBadRequest, "Invalid channel ID")
    ensures r.Ok? ==> r.status == StatusOk && |r.data| == TargetCount(subs, channelId)
    ensures r.Ok? ==> forall i :: 0 <= i < |r.data| ==>
      r.data[i] == FindUser(users, ChannelSubscriptions(subs, channelId)[i].actor)
  {
    if !valid(channelId) then Err(StatusBadRequest, "Invalid channel ID")
    else
      var es := ChannelSubscriptions(subs, channelId);
      Ok(StatusOk, seq(|es|, i requires 0 <= i < |es| => FindUser(users, es[i].actor)),
         "Channel subscribers fetched successfully")
  }

  /** `getSubscribedChannels`: one entry per subscription of the user, newest first,
      each the populated channel (`None` when the channel no longer exists). */
  function GetSubscribedChannels(valid: Id -> bool, subs: seq<Subscription>, users: seq<User>, userId: Id)
    : (r: Response<seq<Option<User>>>)
    ensures !valid(userId) <==> r.Err?
    ensures r.Err? ==> r == Err(StatusBadRequest, "Invalid user ID")
    ensures r.Ok? ==> r.status == StatusOk && |r.data| == |UserSubscriptions(subs, userId)|
    ensures r.Ok? ==> forall i :: 0 <= i < |r.data| ==>
      r.data[i] == FindUser(users, UserSubscriptions(subs, userId)[i].target)
  {
    if !valid(userId) then Err(StatusBadRequest, "Invalid user ID")
    else
      var es := UserSubscriptions(subs, userId);
      Ok(StatusOk, seq(|es|, i requires 0 <= i < |es| => FindUser(users, es[i].target)),
         "Subscribed channels fetched successfully")
  }

  /** Every subscriber listed for a channel holds a subscription to it. */
  lemma SubscribersAreSubscribed(valid: Id -> bool, subs: seq<Subscription>, users: seq<User>, channelId: Id)
    requires valid(channelId)
    ensures forall u :: Some(u) in GetUserChannelSubscribers(valid, subs, users, channelId).data ==>
      u in users && HasEdge(subs, u.id, channelId)
  {
    var data := GetUserChannelSubscribers(valid, subs, users, channelId).data;
    var es := ChannelSubscriptions(subs, channelId);
    forall u | Some(u) in data ensures u in users && HasEdge(subs, u.id, channelId) {
      var i :| 0 <= i < |data| && data[i] == Some(u);
      var e := es[i];
      assert e in es;
      var k :| 0 <= k < |subs| && subs[k] == e;
      assert Joins(subs[k], u.id, channelId);
    }
  }

  /** Every subscription to a channel whose subscriber exists puts that subscriber in
      the channel's list. */
  lemma SubscribedAreListed(valid: Id -> bool, subs: seq<Subscription>, users: seq<User>, channelId: Id)
    requires valid(channelId)
    ensures forall e :: e in subs && e.target == channelId ==>
      FindUser(users, e.actor) in GetUserChannelSubscribers(valid, subs, users, channelId).data
  {
    var data := GetUserChannelSubscribers(valid, subs, users, channelId).data;
    var es := ChannelSubscriptions(subs, channelId);
    forall e | e in subs && e.target == channelId ensures FindUser(users, e.actor) in data {
      assert e in es;
      var i :| 0 <= i < |es| && es[i] == e;
      assert data[i] == FindUser(users, e.actor);
    }
  }
}
