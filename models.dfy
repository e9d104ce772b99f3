/** The documents the controllers read and write. */
module Models {
  import opened Common
  import opened Queries
  import opened Edges

  /** The public part of a user, as `populate(..., "username fullName avatar")` shows it. */
  datatype User = User(id: Id, username: string, fullName: string, avatar: string)

  /** A video document. `views` is not declared by the schema; the dashboard sums it,
      and a document without it contributes 0. `duration` is never computed with. */
  datatype Video = Video(
    id: Id, title: string, description: string, videoFile: string, thumbnail: string,
    duration: real, owner: Id, isPublished: bool, views: nat, createdAt: nat)

  /** A comment; only the video it belongs to matters here. */
  datatype Comment = Comment(id: Id, video: Id)

  /** What a like points at: the source stores one of three optional fields. */
  datatype Target = OnVideo(id: Id) | OnComment(id: Id) | OnTweet(id: Id)

  /** A Like: `likedBy` is the edge's actor. */
  type Like = Edge<Target>

  /** A Subscription: `subscriber` is the actor, `Channel` the target user id. */
  type Subscription = Edge<Id>

  datatype Playlist = Playlist(
    id: Id, name: string, description: string, owner: Id, videos: seq<Id>, createdAt: nat)

  datatype Tweet = Tweet(id: Id, content: string, owner: Id, createdAt: nat)

  /** `User.findById(id)`. */
  function FindUser(users: seq<User>, id: Id): (r: Option<User>)
    ensures r.Some? ==> r.value in users && r.value.id == id
    ensures r.None? <==> forall u :: u in users ==> u.id != id
  {
    match FirstIndex(users, (u: User) => u.id == id)
    case Some(i) => Some(users[i])
    case None => None
  }

  /** `Video.findById(id)`, and the lookup `populate` does for a video reference. */
  function FindVideo(videos: seq<Video>, id: Id): (r: Option<Video>)
    ensures r.Some? ==> r.value in videos && r.value.id == id
    ensures r.None? <==> forall v :: v in videos ==> v.id != id
  {
    match FirstIndex(videos, (v: Video) => v.id == id)
    case Some(i) => Some(videos[i])
    case None => None
  }

  /** A populated array of video references: references that resolve become the video,
      the others are dropped (what `populate` does to an array, and what `.filter(Boolean)`
      does after a `map` over single references). Order is kept. */
  function Populate(videos: seq<Video>, ids: seq<Id>): (r: seq<Video>)
    ensures |r| <= |ids|
    ensures forall v :: v in r ==> v in videos && v.id in ids
    ensures forall id :: id in ids && FindVideo(videos, id).Some? ==> FindVideo(videos, id).value in r
  {
    if ids == [] then []
    else
      var rest := Populate(videos, ids[1..]);
      assert forall id :: id in ids ==> id == ids[0] || id in ids[1..];
      match FindVideo(videos, ids[0])
      case Some(v) => [v] + rest
      case None => rest
  }

  /** One reference populates to its video when it resolves, and to nothing otherwise. */
  function Resolved(videos: seq<Video>, id: Id): (r: seq<Video>)
    ensures |r| <= 1
    ensures r != [] <==> FindVideo(videos, id).Some?
    ensures r != [] ==> r[0].id == id && r[0] in videos
  {
    match FindVideo(videos, id)
    case Some(v) => [v]
    case None => []
  }

  /** A single reference populates to `Resolved`. */
  lemma PopulateOne(videos: seq<Video>, id: Id)
    ensures Populate(videos, [id]) == Resolved(videos, id)
  {
    assert [id][1..] == [];
  }

  /** Population works reference by reference: the videos of a concatenation are those of
      its parts, in order, so the references' order is kept. */
  lemma {:induction false} PopulateAppend(videos: seq<Video>, a: seq<Id>, b: seq<Id>)
    ensures Populate(videos, a + b) == Populate(videos, a) + Populate(videos, b)
  {
    if a == [] {
      assert a + b == b;
    } else {
      assert (a + b)[0] == a[0];
      assert (a + b)[1..] == a[1..] + b;
      PopulateAppend(videos, a[1..], b);
    }
  }

  /** Position of the playlist with this id (`Playlist.findById`). */
  function FindPlaylist(playlists: seq<Playlist>, id: Id): (r: Option<nat>)
    ensures r.Some? ==> r.value < |playlists| && playlists[r.value].id == id
    ensures r.Some? ==> forall j :: 0 <= j < r.value ==> playlists[j].id != id
    ensures r.None? <==> forall i :: 0 <= i < |playlists| ==> playlists[i].id != id
  {
    FirstIndex(playlists, (p: Playlist) => p.id == id)
  }

  /** Position of the tweet with this id (`Tweet.findById`). */
  function FindTweet(tweets: seq<Tweet>, id: Id): (r: Option<nat>)
    ensures r.Some? ==> r.value < |tweets| && tweets[r.value].id == id
    ensures r.Some? ==> forall j :: 0 <= j < r.value ==> tweets[j].id != id
    ensures r.None? <==> forall i :: 0 <= i < |tweets| ==> tweets[i].id != id
  {
    FirstIndex(tweets, (t: Tweet) => t.id == id)
  }
}
