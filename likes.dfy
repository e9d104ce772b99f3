/** The like controller: toggling a like on a video, comment or tweet, and listing the
    videos a user has liked. */
module Likes {
  import opened Common
  import opened Queries
  import opened Edges
  import opened Models
  import opened Database

  /** Which of the three toggle routes was called. */
  datatype Kind = VideoKind | CommentKind | TweetKind

  /** The like field the route's id goes into: `video`, `comment` or `tweet`. */
  function TargetOf(kind: Kind, id: Id): (t: Target)
    ensures t.id == id
    ensures t.OnVideo? <==> kind == VideoKind
    ensures t.OnComment? <==> kind == CommentKind
    ensures t.OnTweet? <==> kind == TweetKind
  {
    match kind
    case VideoKind => OnVideo(id)
    case CommentKind => OnComment(id)
    case TweetKind => OnTweet(id)
  }

  function InvalidIdMessage(kind: Kind): string {
    match kind
    case VideoKind => "Invalid video ID"
    case CommentKind => "Invalid comment ID"
    case TweetKind => "Invalid tweet ID"
  }

  function ToggledMessage(kind: Kind): string {
    match kind
    case VideoKind => "Video like toggled successfully"
    case CommentKind => "Comment like toggled successfully"
    case TweetKind => "Tweet like toggled successfully"
  }

  datatype LikeToggled = LikeToggled(isLiked: bool, totalLikes: nat)

  /** `toggleVideoLike`, `toggleCommentLike` and `toggleTweetLike`: reject a malformed id;
      otherwise delete the caller's like on the target if there is one and create it if
      not, then re-count the likes on the target. */
  method ToggleLike(db: Store, user: Id, kind: Kind, targetId: Id, now: nat) returns (r: Response<LikeToggled>)
    requires db.Valid()
    modifies db`likes, db`nextId
    ensures db.Valid()
    ensures !db.validId(targetId) ==>
      r == Err(StatusBadRequest, InvalidIdMessage(kind)) && db.likes == old(db.likes) && db.nextId == old(db.nextId)
    ensures db.validId(targetId) ==>
      var target := TargetOf(kind, targetId);
      var t := Toggle(old(db.likes), user, target, old(db.nextId), now);
      && db.likes == t.edges
      && (t.active <==> HasEdge(db.likes, user, target))
      && (t.active <==> !HasEdge(old(db.likes), user, target))
      && Others(db.likes, user, target) == Others(old(db.likes), user, target)
      && TargetCount(db.likes, target) ==
           (if t.active then TargetCount(old(db.likes), target) + 1 else TargetCount(old(db.likes), target) - 1)
      && db.nextId == (if t.active then old(db.nextId) + 1 else old(db.nextId))
      && r == Ok(StatusOk, LikeToggled(t.active, TargetCount(db.likes, target)), ToggledMessage(kind))
  {
    if !db.validId(targetId) {
      return Err(StatusBadRequest, InvalidIdMessage(kind));
    }
    r := FlipLike(db, user, TargetOf(kind, targetId), ToggledMessage(kind), now);
  }

  /** The part of the like toggles after the id check: the caller's like on `target` is
      flipped, the likes on `target` are re-counted, and nothing else changes. */
  method FlipLike(db: Store, user: Id, target: Target, message: string, now: nat) returns (r: Response<LikeToggled>)
    requires db.Valid()
    modifies db`likes, db`nextId
    ensures db.Valid()
    ensures var t := Toggle(old(db.likes), user, target, old(db.nextId), now);
      && db.likes == t.edges
      && (t.active <==> HasEdge(db.likes, user, target))
      && (t.active <==> !HasEdge(old(db.likes), user, target))
      && Others(db.likes, user, target) == Others(old(db.likes), user, target)
      && TargetCount(db.likes, target) ==
           (if t.active then TargetCount(old(db.likes), target) + 1 else TargetCount(old(db.likes), target) - 1)
      && db.nextId == (if t.active then old(db.nextId) + 1 else old(db.nextId))
      && r == Ok(StatusOk, LikeToggled(t.active, TargetCount(db.likes, target)), message)
  {
    ToggleLaws(db.likes, user, target, db.nextId, now);
    var isLiked := db.ToggleLikeEdge(user, target, now);
    var totalLikes := TargetCount(db.likes, target);
    r := Ok(StatusOk, LikeToggled(isLiked, totalLikes), message);
  }

  /** `Like.find({ likedBy: user, video: { $ne: null } }).sort({ createdAt: -1 })`. */
  function UserVideoLikes(likes: seq<Like>, user: Id): (r: seq<Like>)
    ensures forall l :: multiset(r)[l] == if l.actor == user && l.target.OnVideo? then multiset(likes)[l] else 0
    ensures forall l :: l in r <==> l in likes && l.actor == user && l.target.OnVideo?
    ensures forall i, j :: 0 <= i < j < |r| ==> r[i].createdAt >= r[j].createdAt
  {
    var q := Query(likes, (l: Like) => l.actor == user && l.target.OnVideo?, (l: Like) => l.createdAt);
    assert NewestFirst(q, (l: Like) => l.createdAt);
    q
  }

  /** The `video` reference of each like, in order. */
  function VideoRefs(ls: seq<Like>): (ids: seq<Id>)
    ensures |ids| == |ls|
    ensures forall i :: 0 <= i < |ls| ==> ids[i] == ls[i].target.id
  {
    seq(|ls|, i requires 0 <= i < |ls| => ls[i].target.id)
  }

  /** Each reference in the list comes from a video like of the caller, and each such
      like contributes its reference. */
  lemma LikedRefs(likes: seq<Like>, user: Id)
    ensures var ids := VideoRefs(UserVideoLikes(likes, user));
      && (forall id :: id in ids ==> OnVideo(id) in TargetsLikedBy(likes, user))
      && (forall l :: l in likes && l.actor == user && l.target.OnVideo? ==> l.target.id in ids)
  {
    var ls := UserVideoLikes(likes, user);
    var ids := VideoRefs(ls);
    forall id | id in ids ensures OnVideo(id) in TargetsLikedBy(likes, user) {
      var i :| 0 <= i < |ids| && ids[i] == id;
      assert ls[i] in ls;
    }
    forall l | l in likes && l.actor == user && l.target.OnVideo? ensures l.target.id in ids {
      var i :| 0 <= i < |ls| && ls[i] == l;
      assert ids[i] == l.target.id;
    }
  }

  /** The targets `user` has a like on. */
  function TargetsLikedBy(likes: seq<Like>, user: Id): (r: set<Target>)
    ensures forall t :: t in r <==> exists l :: l in likes && l.actor == user && l.target == t
  {
    set l | l in likes && l.actor == user :: l.target
  }

  /** `getLikedVideos`: the caller's video likes, newest first, populated, with the
      references that did not resolve dropped. */
  function GetLikedVideos(likes: seq<Like>, videos: seq<Video>, user: Id): (r: Response<seq<Video>>)
    ensures r.Ok? && r.status == StatusOk
    ensures forall v :: v in r.data ==> v in videos && OnVideo(v.id) in TargetsLikedBy(likes, user)
    ensures forall l :: l in likes && l.actor == user && l.target.OnVideo? && FindVideo(videos, l.target.id).Some? ==>
      FindVideo(videos, l.target.id).value in r.data
    ensures r.data == Populate(videos, VideoRefs(UserVideoLikes(likes, user)))
  {
    LikedRefs(likes, user);
    Ok(StatusOk, Populate(videos, VideoRefs(UserVideoLikes(likes, user))), "Liked videos fetched successfully")
  }
}
