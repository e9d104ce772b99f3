/** The dashboard controller: read-only statistics and the video list of the caller's
    channel. Both handlers are functions of the store, so they change nothing. */
module Dashboard {
  import opened Common
  import opened Queries
  import opened Edges
  import opened Models
  import opened Subscriptions

  /** The filter `{ owner: channel }` on videos. */
  function OwnedBy(channel: Id): Video -> bool {
    (v: Video) => v.owner == channel
  }

  /** The ids of some videos, in order (`map(v => v._id)`). */
  function VideoIds(vs: seq<Video>): (ids: seq<Id>)
    ensures |ids| == |vs|
    ensures forall id :: id in ids <==> exists v :: v in vs && v.id == id
  {
    if vs == [] then []
    else
      var rest := VideoIds(vs[1..]);
      assert forall v :: v in vs <==> v == vs[0] || v in vs[1..];
      [vs[0].id] + rest
  }

  /** The ids of the channel's videos (`videoIds.map(v => v._id)`), in natural order. */
  function ChannelVideoIds(videos: seq<Video>, channel: Id): (ids: seq<Id>)
    ensures |ids| == Count(videos, OwnedBy(channel))
    ensures forall id :: id in ids <==> exists v :: v in videos && v.owner == channel && v.id == id
  {
    var owned := Select(videos, OwnedBy(channel));
    assert forall v :: v in owned <==> v in videos && v.owner == channel;
    VideoIds(owned)
  }

  /** The sum of `views` over some videos (`$sum: "$views"`): no video has more views
      than the sum, and the sum is zero exactly when every video counted has none. */
  function SumViews(vs: seq<Video>): (n: nat)
    ensures forall i :: 0 <= i < |vs| ==> vs[i].views <= n
    ensures n == 0 <==> forall i :: 0 <= i < |vs| ==> vs[i].views == 0
  {
    if vs == [] then 0
    else
      var rest := SumViews(vs[1..]);
      assert forall i :: 1 <= i < |vs| ==> vs[i] == vs[1..][i - 1];
      vs[0].views + rest
  }

  /** One output document of the `$group` stage. */
  datatype ViewsGroup = ViewsGroup(views: nat)

  /** The aggregation `$match { owner } -> $group { _id: null, views: $sum }`: no group at
      all when nothing matched, one group holding the sum otherwise. */
  function AggregateViews(videos: seq<Video>, channel: Id): (g: seq<ViewsGroup>)
    ensures |g| <= 1
    ensures g == [] <==> forall v :: v in videos ==> v.owner != channel
    ensures g != [] ==> g[0].views == SumViews(Select(videos, OwnedBy(channel)))
  {
    var owned := Select(videos, OwnedBy(channel));
    if owned == [] then [] else [ViewsGroup(SumViews(owned))]
  }

  /** `totalViews[0]?.views || 0`. */
  function ViewsOrZero(g: seq<ViewsGroup>): (n: nat)
    ensures g == [] ==> n == 0
    ensures g != [] ==> n == g[0].views
  {
    if g == [] then 0 else g[0].views
  }

  /** `Like.countDocuments({ video: { $in: videoObjectIds } })`'s filter. */
  function LikeOnAnyOf(ids: seq<Id>): (f: Like -> bool)
    ensures forall l :: f(l) <==> l.target.OnVideo? && l.target.id in ids
  {
    (l: Like) => l.target.OnVideo? && l.target.id in ids
  }

  /** `Comment.countDocuments({ video: { $in: videoObjectIds } })`'s filter. */
  function CommentOnAnyOf(ids: seq<Id>): (f: Comment -> bool)
    ensures forall c :: f(c) <==> c.video in ids
  {
    (c: Comment) => c.video in ids
  }

  /** The target is a video of `channel`. */
  predicate OwnedVideoTarget(videos: seq<Video>, channel: Id, t: Target) {
    t.OnVideo? && exists v :: v in videos && v.owner == channel && v.id == t.id
  }

  /** A like on one of the channel's videos, stated directly. */
  function LikeOnOwnedVideo(videos: seq<Video>, channel: Id): Like -> bool {
    (l: Like) => OwnedVideoTarget(videos, channel, l.target)
  }

  /** A comment on one of the channel's videos, stated directly. */
  function CommentOnOwnedVideo(videos: seq<Video>, channel: Id): Comment -> bool {
    (c: Comment) => exists v :: v in videos && v.owner == channel && v.id == c.video
  }

  /** The `$in` filter over the collected ids counts exactly the likes on owned videos. */
  lemma LikesOnIdsAreOwned(videos: seq<Video>, likes: seq<Like>, channel: Id)
    ensures Count(likes, LikeOnAnyOf(ChannelVideoIds(videos, channel))) ==
            Count(likes, LikeOnOwnedVideo(videos, channel))
  {
    var ids := ChannelVideoIds(videos, channel);
    forall j | 0 <= j < |likes|
      ensures LikeOnAnyOf(ids)(likes[j]) == LikeOnOwnedVideo(videos, channel)(likes[j])
    {
      assert LikeOnAnyOf(ids)(likes[j]) == (likes[j].target.OnVideo? && likes[j].target.id in ids);
    }
    CountSame(likes, LikeOnAnyOf(ids), LikeOnOwnedVideo(videos, channel));
  }

  /** The `$in` filter over the collected ids counts exactly the comments on owned videos. */
  lemma CommentsOnIdsAreOwned(videos: seq<Video>, comments: seq<Comment>, channel: Id)
    ensures Count(comments, CommentOnAnyOf(ChannelVideoIds(videos, channel))) ==
            Count(comments, CommentOnOwnedVideo(videos, channel))
  {
    var ids := ChannelVideoIds(videos, channel);
    forall j | 0 <= j < |comments|
      ensures CommentOnAnyOf(ids)(comments[j]) == CommentOnOwnedVideo(videos, channel)(comments[j])
    {
      assert CommentOnAnyOf(ids)(comments[j]) == (comments[j].video in ids);
    }
    CountSame(comments, CommentOnAnyOf(ids), CommentOnOwnedVideo(videos, channel));
  }

  /** A channel without videos counts none. */
  lemma NoOwnedNoCount(videos: seq<Video>, channel: Id)
    ensures (forall v :: v in videos ==> v.owner != channel) ==> Count(videos, OwnedBy(channel)) == 0
  {
    if forall v :: v in videos ==> v.owner != channel {
      forall j | 0 <= j < |videos| ensures !OwnedBy(channel)(videos[j]) {
        assert videos[j] in videos;
      }
    }
  }

  datatype ChannelStats = ChannelStats(
    totalVideos: nat, totalViews: nat, totalLikes: nat, totalComments: nat, subscribers: nat)

  /** `totalViews`: the aggregation read through `?.views || 0`. */
  function TotalViews(videos: seq<Video>, channel: Id): (n: nat)
    ensures n == SumViews(Select(videos, OwnedBy(channel)))
    ensures (forall v :: v in videos ==> v.owner != channel) ==> n == 0
  {
    ViewsOrZero(AggregateViews(videos, channel))
  }

  /** `totalLikes`: the likes whose video is among the channel's video ids. */
  function TotalLikes(videos: seq<Video>, likes: seq<Like>, channel: Id): (n: nat)
    ensures n == Count(likes, LikeOnOwnedVideo(videos, channel))
  {
    LikesOnIdsAreOwned(videos, likes, channel);
    Count(likes, LikeOnAnyOf(ChannelVideoIds(videos, channel)))
  }

  /** `totalComments`: the comments whose video is among the channel's video ids. */
  function TotalComments(videos: seq<Video>, comments: seq<Comment>, channel: Id): (n: nat)
    ensures n == Count(comments, CommentOnOwnedVideo(videos, channel))
  {
    CommentsOnIdsAreOwned(videos, comments, channel);
    Count(comments, CommentOnAnyOf(ChannelVideoIds(videos, channel)))
  }

  /** `getChannelStats` for the signed-in `channel`, with the five concurrent queries
      read one after the other. */
  function GetChannelStats(videos: seq<Video>, likes: seq<Like>, comments: seq<Comment>,
                           subs: seq<Subscription>, channel: Id): (r: Response<ChannelStats>)
    ensures r.Ok? && r.status == StatusOk && r.message == "Channel stats fetched successfully"
    ensures r.data.totalVideos == Count(videos, OwnedBy(channel))
    ensures r.data.totalViews == SumViews(Select(videos, OwnedBy(channel)))
    ensures (forall v :: v in videos ==> v.owner != channel) ==>
      r.data.totalVideos == 0 && r.data.totalViews == 0
    ensures r.data.totalLikes == Count(likes, LikeOnOwnedVideo(videos, channel))
    ensures r.data.totalComments == Count(comments, CommentOnOwnedVideo(videos, channel))
    ensures r.data.subscribers == TargetCount(subs, channel)
  {
    NoOwnedNoCount(videos, channel);
    Ok(StatusOk,
       ChannelStats(
         Count(videos, OwnedBy(channel)),
         TotalViews(videos, channel),
         TotalLikes(videos, likes, channel),
         TotalComments(videos, comments, channel),
         TargetCount(subs, channel)),
       "Channel stats fetched successfully")
  }

  /** `getChannelVideos`: exactly the channel's videos, each as often as stored, newest
      first. */
  function GetChannelVideos(videos: seq<Video>, channel: Id): (r: Response<seq<Video>>)
    ensures r.Ok? && r.status == StatusOk && r.message == "Channel videos fetched successfully"
    ensures forall v :: multiset(r.data)[v] == if v.owner == channel then multiset(videos)[v] else 0
    ensures forall v :: v in r.data <==> v in videos && v.owner == channel
    ensures forall i, j :: 0 <= i < j < |r.data| ==> r.data[i].createdAt >= r.data[j].createdAt
    ensures |r.data| == Count(videos, OwnedBy(channel))
  {
    var q := Query(videos, OwnedBy(channel), (v: Video) => v.createdAt);
    assert NewestFirst(q, (v: Video) => v.createdAt);
    Ok(StatusOk, q, "Channel videos fetched successfully")
  }

  /** The two handlers agree: `totalVideos` is the length of the channel's video list. */
  lemma StatsCountListedVideos(videos: seq<Video>, likes: seq<Like>, comments: seq<Comment>,
                               subs: seq<Subscription>, channel: Id)
    ensures GetChannelStats(videos, likes, comments, subs, channel).data.totalVideos ==
            |GetChannelVideos(videos, channel).data|
  {
  }

  /** `subscribers` is the length of the channel's subscriber list. */
  lemma StatsCountListedSubscribers(valid: Id -> bool, videos: seq<Video>, likes: seq<Like>,
                                    comments: seq<Comment>, subs: seq<Subscription>,
                                    users: seq<User>, channel: Id)
    requires valid(channel)
    ensures GetChannelStats(videos, likes, comments, subs, channel).data.subscribers ==
            |GetUserChannelSubscribers(valid, subs, users, channel).data|
  {
  }

  /** Toggling a like moves `totalLikes` by one exactly when the like is on one of the
      channel's videos; likes on anything else never count. */
  lemma ToggleLikeMovesTotal(videos: seq<Video>, likes: seq<Like>, comments: seq<Comment>,
                             subs: seq<Subscription>, channel: Id,
                             user: Id, target: Target, newId: Id, now: nat)
    ensures var t := Toggle(likes, user, target, newId, now);
      var before := GetChannelStats(videos, likes, comments, subs, channel).data.totalLikes;
      var after := GetChannelStats(videos, t.edges, comments, subs, channel).data.totalLikes;
      after == if !OwnedVideoTarget(videos, channel, target) then before
               else if t.active then before + 1 else before - 1
  {
    ToggleCountWhere(likes, user, target, newId, now, LikeOnOwnedVideo(videos, channel),
                     OwnedVideoTarget(videos, channel, target));
  }
}
