/** The playlist controller: create, list, fetch, add a video, remove a video, delete
    and update. Every mutation of an existing playlist is reserved to its owner. */
module Playlists {
  import opened Common
  import opened Text
  import opened Queries
  import opened Edges
  import opened Models
  import opened Database

  // ---------------------------------------------------------------------------
  // The two list edits on `playlist.videos`

  /** `videos.filter(v => v.toString() !== videoId)`: every occurrence of `v` goes,
      every other id keeps its multiplicity. */
  function Without(vs: seq<Id>, v: Id): (r: seq<Id>)
    ensures v !in r
    ensures forall x :: x != v ==> multiset(r)[x] == multiset(vs)[x]
    ensures |r| <= |vs|
  {
    var r := Select<Id>(vs, Other(v));
    assert multiset(r)[v] == 0;
    r
  }

  /** The filter's test: any id but `v`. */
  function Other(v: Id): Id -> bool {
    (x: Id) => x != v
  }

  /** Removal works piecewise, so the surviving ids keep their relative order. */
  lemma WithoutAppend(a: seq<Id>, b: seq<Id>, v: Id)
    ensures Without(a + b, v) == Without(a, v) + Without(b, v)
  {
    SelectAppend<Id>(a, b, Other(v));
  }

  /** Removing an absent video leaves the list as it was. */
  lemma WithoutAbsent(vs: seq<Id>, v: Id)
    requires v !in vs
    ensures Without(vs, v) == vs
  {
    SelectAll<Id>(vs, Other(v));
  }

  /** Adding a video that was not in the list and then removing it restores the list. */
  lemma AddThenRemove(vs: seq<Id>, v: Id)
    requires v !in vs
    ensures Without(vs + [v], v) == vs
  {
    WithoutAppend(vs, [v], v);
    WithoutAbsent(vs, v);
    assert [v][1..] == [];
    assert Without([v], v) == [];
  }

  /** Appending an absent video keeps the list duplicate-free. */
  lemma AddKeepsNoDup(vs: seq<Id>, v: Id)
    requires NoDup(vs) && v !in vs
    ensures NoDup(vs + [v])
  {
    var r := vs + [v];
    forall i, j | 0 <= i < j < |r| ensures r[i] != r[j] {
      if j == |vs| {
        assert r[i] == vs[i];
      }
    }
  }

  /** Removal keeps the list duplicate-free. */
  lemma RemoveKeepsNoDup(vs: seq<Id>, v: Id)
    requires NoDup(vs)
    ensures NoDup(Without(vs, v))
  {
    SelectKeepsNoDup<Id>(vs, Other(v));
  }

  // ---------------------------------------------------------------------------
  // The shared lookup and ownership guard

  datatype Access = Granted(index: nat) | Denied(status: nat, message: string)

  const NotFoundMessage := "Playlist not found"
  const ModifyForbidden := "You are not allowed to modify this playlist"
  const DeleteForbidden := "You are not allowed to delete this playlist"
  const UpdateForbidden := "You are not allowed to update this playlist"

  /** `Playlist.findById` followed by the owner check: 404 when no playlist has the id,
      403 (with the handler's message) when the caller is not its owner. */
  function Authorize(playlists: seq<Playlist>, playlistId: Id, user: Id, forbidden: string): (a: Access)
    ensures a.Granted? ==>
      a.index < |playlists| && playlists[a.index].id == playlistId && playlists[a.index].owner == user
    ensures (a == Denied(StatusNotFound, NotFoundMessage)) <==>
      forall i :: 0 <= i < |playlists| ==> playlists[i].id != playlistId
    ensures a.Denied? && a.status != StatusNotFound ==>
      a == Denied(StatusForbidden, forbidden) &&
      exists i :: 0 <= i < |playlists| && playlists[i].id == playlistId && playlists[i].owner != user
  {
    match FindPlaylist(playlists, playlistId)
    case None => Denied(StatusNotFound, NotFoundMessage)
    case Some(i) =>
      if playlists[i].owner != user then Denied(StatusForbidden, forbidden) else Granted(i)
  }

  /** With unique ids, the caller is refused with 403 exactly when the playlist exists
      and belongs to someone else, and let through exactly when it is theirs. */
  lemma AuthorizeOwnerOnly(playlists: seq<Playlist>, playlistId: Id, user: Id, forbidden: string, k: nat)
    requires forall i, j :: 0 <= i < j < |playlists| ==> playlists[i].id != playlists[j].id
    requires k < |playlists| && playlists[k].id == playlistId
    ensures var a := Authorize(playlists, playlistId, user, forbidden);
      && (a.Granted? <==> playlists[k].owner == user)
      && (a.Granted? ==> a.index == k)
      && (a.Denied? ==> a == Denied(StatusForbidden, forbidden))
  {
    var a := Authorize(playlists, playlistId, user, forbidden);
    if a.Granted? {
      assert a.index == k;
    }
    if a.Denied? && a.status != StatusNotFound {
      var i :| 0 <= i < |playlists| && playlists[i].id == playlistId && playlists[i].owner != user;
      assert i == k;
    }
  }

  // ---------------------------------------------------------------------------
  // Handlers

  /** `createPlaylist`: a missing or empty name or description is a 400; otherwise the
      trimmed name and description, the caller as owner and no videos. */
  method CreatePlaylist(db: Store, owner: Id, name: Option<string>, description: Option<string>, now: nat)
    returns (r: Response<Playlist>)
    requires db.Valid()
    modifies db`playlists, db`nextId
    ensures db.Valid()
    ensures !Truthy(name) || !Truthy(description) ==>
      r == Err(StatusBadRequest, "Name and description are required") &&
      db.playlists == old(db.playlists) && db.nextId == old(db.nextId)
    ensures Truthy(name) && Truthy(description) ==>
      var p := Playlist(old(db.nextId), Trim(name.value), Trim(description.value), owner, [], now);
      && r == Ok(StatusCreated, p, "Playlist created successfully")
      && db.playlists == old(db.playlists) + [p]
      && db.nextId == old(db.nextId) + 1
      && forall q :: q in old(db.playlists) ==> q.id != p.id
  {
    if !Truthy(name) || !Truthy(description) {
      return Err(StatusBadRequest, "Name and description are required");
    }
    var p := Playlist(db.nextId, Trim(name.value), Trim(description.value), owner, [], now);
    db.playlists := db.playlists + [p];
    db.nextId := db.nextId + 1;
    r := Ok(StatusCreated, p, "Playlist created successfully");
  }

  /** A playlist with its `videos` populated. */
  datatype PlaylistView = PlaylistView(playlist: Playlist, videos: seq<Video>)

  function View(videos: seq<Video>, p: Playlist): (r: PlaylistView)
    ensures r.playlist == p
    ensures r.videos == Populate(videos, p.videos)
  {
    PlaylistView(p, Populate(videos, p.videos))
  }

  /** `Playlist.find({ owner: user }).sort({ createdAt: -1 })`. */
  function OwnedPlaylists(playlists: seq<Playlist>, user: Id): (r: seq<Playlist>)
    ensures forall p :: multiset(r)[p] == if p.owner == user then multiset(playlists)[p] else 0
    ensures forall p :: p in r <==> p in playlists && p.owner == user
    ensures forall i, j :: 0 <= i < j < |r| ==> r[i].createdAt >= r[j].createdAt
  {
    var q := Query(playlists, (p: Playlist) => p.owner == user, (p: Playlist) => p.createdAt);
    assert NewestFirst(q, (p: Playlist) => p.createdAt);
    q
  }

  /** The playlists with their videos populated, in the same order. */
  function Views(videos: seq<Video>, ps: seq<Playlist>): (r: seq<PlaylistView>)
    ensures |r| == |ps|
    ensures forall i :: 0 <= i < |ps| ==> r[i] == View(videos, ps[i])
    ensures forall i :: 0 <= i < |ps| ==> r[i].playlist == ps[i]
  {
    seq(|ps|, i requires 0 <= i < |ps| => View(videos, ps[i]))
  }

  /** `getUserPlaylists`: 400 on a malformed id; otherwise one entry per playlist the
      user owns, in the order of `OwnedPlaylists`, each with its videos populated. */
  function GetUserPlaylists(valid: Id -> bool, playlists: seq<Playlist>, videos: seq<Video>, userId: Id)
    : (r: Response<seq<PlaylistView>>)
    ensures !valid(userId) <==> r.Err?
    ensures r.Err? ==> r == Err(StatusBadRequest, "Invalid user ID")
    ensures r.Ok? ==> r.status == StatusOk && r.data == Views(videos, OwnedPlaylists(playlists, userId))
  {
    if !valid(userId) then Err(StatusBadRequest, "Invalid user ID")
    else
      Ok(StatusOk, Views(videos, OwnedPlaylists(playlists, userId)), "User playlists fetched successfully")
  }

  /** The listing holds exactly the user's playlists: each entry is one of theirs, newest
      first, and each of theirs is listed with its videos populated. */
  lemma UserPlaylistsAreTheirs(valid: Id -> bool, playlists: seq<Playlist>, videos: seq<Video>, userId: Id)
    requires valid(userId)
    ensures var data := GetUserPlaylists(valid, playlists, videos, userId).data;
      && (forall i :: 0 <= i < |data| ==> data[i].playlist.owner == userId && data[i].playlist in playlists)
      && (forall i, j :: 0 <= i < j < |data| ==> data[i].playlist.createdAt >= data[j].playlist.createdAt)
      && (forall p :: p in playlists && p.owner == userId ==>
            exists i :: 0 <= i < |data| && data[i] == View(videos, p))
  {
    var ps := OwnedPlaylists(playlists, userId);
    OwnedPlaylistsListed(playlists, userId);
    ViewsOfListed(videos, ps, playlists, userId);
    assert GetUserPlaylists(valid, playlists, videos, userId).data == Views(videos, ps);
  }

  /** Populating a listing of the user's playlists keeps what the listing says: each entry
      is theirs, the order is kept, and each listed playlist has its view. */
  lemma ViewsOfListed(videos: seq<Video>, ps: seq<Playlist>, playlists: seq<Playlist>, userId: Id)
    requires forall i :: 0 <= i < |ps| ==> ps[i] in playlists && ps[i].owner == userId
    requires forall i, j :: 0 <= i < j < |ps| ==> ps[i].createdAt >= ps[j].createdAt
    requires forall p :: p in playlists && p.owner == userId ==> exists i :: 0 <= i < |ps| && ps[i] == p
    ensures var data := Views(videos, ps);
      && (forall i :: 0 <= i < |data| ==> data[i].playlist.owner == userId && data[i].playlist in playlists)
      && (forall i, j :: 0 <= i < j < |data| ==> data[i].playlist.createdAt >= data[j].playlist.createdAt)
      && (forall p :: p in playlists && p.owner == userId ==>
            exists i :: 0 <= i < |data| && data[i] == View(videos, p))
  {
    var data := Views(videos, ps);
    forall p | p in playlists && p.owner == userId
      ensures exists i :: 0 <= i < |data| && data[i] == View(videos, p)
    {
      var i :| 0 <= i < |ps| && ps[i] == p;
      assert data[i] == View(videos, p);
    }
  }

  /** Each of the user's playlists has a position in `OwnedPlaylists`. */
  lemma OwnedPlaylistsListed(playlists: seq<Playlist>, userId: Id)
    ensures var ps := OwnedPlaylists(playlists, userId);
      && (forall i :: 0 <= i < |ps| ==> ps[i] in playlists && ps[i].owner == userId)
      && (forall p :: p in playlists && p.owner == userId ==> exists i :: 0 <= i < |ps| && ps[i] == p)
  {
    var ps := OwnedPlaylists(playlists, userId);
    forall i | 0 <= i < |ps| ensures ps[i] in playlists && ps[i].owner == userId {
      assert ps[i] in ps;
    }
  }

  /** `getPlaylistById`: 400 on a malformed id, 404 when no playlist has it, otherwise
      that playlist with its videos populated. */
  function GetPlaylistById(valid: Id -> bool, playlists: seq<Playlist>, videos: seq<Video>, playlistId: Id)
    : (r: Response<PlaylistView>)
    ensures !valid(playlistId) ==> r == Err(StatusBadRequest, "Invalid playlist ID")
    ensures valid(playlistId) && (forall p :: p in playlists ==> p.id != playlistId) ==>
      r == Err(StatusNotFound, NotFoundMessage)
    ensures valid(playlistId) && (exists p :: p in playlists && p.id == playlistId) ==> r.Ok?
    ensures r.Ok? ==>
      && r.status == StatusOk
      && r.data.playlist in playlists && r.data.playlist.id == playlistId
      && r.data == View(videos, r.data.playlist)
  {
    if !valid(playlistId) then Err(StatusBadRequest, "Invalid playlist ID")
    else match FindPlaylist(playlists, playlistId)
      case None => Err(StatusNotFound, NotFoundMessage)
      case Some(i) => Ok(StatusOk, View(videos, playlists[i]), "Playlist fetched successfully")
  }

  /** `addVideoToPlaylist`. Guards in order: malformed ids (400), no such playlist (404),
      not the owner (403), video already listed (400). Otherwise the video is appended. */
  method AddVideoToPlaylist(db: Store, user: Id, playlistId: Id, videoId: Id) returns (r: Response<Playlist>)
    requires db.Valid()
    modifies db`playlists
    ensures db.Valid()
    ensures r.Err? ==> db.playlists == old(db.playlists)
    ensures !db.validId(playlistId) || !db.validId(videoId) ==>
      r == Err(StatusBadRequest, "Invalid playlist or video ID")
    ensures db.validId(playlistId) && db.validId(videoId) ==>
      match Authorize(old(db.playlists), playlistId, user, ModifyForbidden)
      case Denied(code, msg) => r == Err(code, msg)
      case Granted(i) =>
        var p := old(db.playlists)[i];
        if videoId in p.videos then r == Err(StatusBadRequest, "Video already exists in playlist")
        else
          var p' := p.(videos := p.videos + [videoId]);
          r == Ok(StatusOk, p', "Video added to playlist") && db.playlists == old(db.playlists)[i := p']
  {
    if !db.validId(playlistId) || !db.validId(videoId) {
      return Err(StatusBadRequest, "Invalid playlist or video ID");
    }
    var access := Authorize(db.playlists, playlistId, user, ModifyForbidden);
    if access.Denied? {
      return Err(access.status, access.message);
    }
    var i := access.index;
    var p := db.playlists[i];
    if videoId in p.videos {
      return Err(StatusBadRequest, "Video already exists in playlist");
    }
    AddKeepsNoDup(p.videos, videoId);
    var p' := p.(videos := p.videos + [videoId]);
    db.playlists := db.playlists[i := p'];
    r := Ok(StatusOk, p', "Video added to playlist");
  }

  /** `removeVideoFromPlaylist`. Guards in order: malformed ids (400), no such playlist
      (404), not the owner (403). Otherwise every occurrence of the video is filtered
      out; an absent video is not an error. */
  method RemoveVideoFromPlaylist(db: Store, user: Id, playlistId: Id, videoId: Id) returns (r: Response<Playlist>)
    requires db.Valid()
    modifies db`playlists
    ensures db.Valid()
    ensures r.Err? ==> db.playlists == old(db.playlists)
    ensures !db.validId(playlistId) || !db.validId(videoId) ==>
      r == Err(StatusBadRequest, "Invalid playlist or video ID")
    ensures db.validId(playlistId) && db.validId(videoId) ==>
      match Authorize(old(db.playlists), playlistId, user, ModifyForbidden)
      case Denied(code, msg) => r == Err(code, msg)
      case Granted(i) =>
        var p := old(db.playlists)[i];
        var p' := p.(videos := Without(p.videos, videoId));
        r == Ok(StatusOk, p', "Video removed from playlist") && db.playlists == old(db.playlists)[i := p']
  {
    if !db.validId(playlistId) || !db.validId(videoId) {
      return Err(StatusBadRequest, "Invalid playlist or video ID");
    }
    var access := Authorize(db.playlists, playlistId, user, ModifyForbidden);
    if access.Denied? {
      return Err(access.status, access.message);
    }
    var i := access.index;
    var p := db.playlists[i];
    RemoveKeepsNoDup(p.videos, videoId);
    var p' := p.(videos := Without(p.videos, videoId));
    db.playlists := db.playlists[i := p'];
    r := Ok(StatusOk, p', "Video removed from playlist");
  }

  /** `deletePlaylist`. Guards in order: malformed id (400), no such playlist (404), not
      the owner (403). Otherwise the playlist is removed and no playlist has its id. */
  method DeletePlaylist(db: Store, user: Id, playlistId: Id) returns (r: Response<()>)
    requires db.Valid()
    modifies db`playlists
    ensures db.Valid()
    ensures r.Err? ==> db.playlists == old(db.playlists)
    ensures !db.validId(playlistId) ==> r == Err(StatusBadRequest, "Invalid playlist ID")
    ensures db.validId(playlistId) ==>
      match Authorize(old(db.playlists), playlistId, user, DeleteForbidden)
      case Denied(code, msg) => r == Err(code, msg)
      case Granted(i) =>
        && r == Ok(StatusOk, (), "Playlist deleted successfully")
        && db.playlists == RemoveAt(old(db.playlists), i)
        && forall q :: q in db.playlists ==> q.id != playlistId
  {
    if !db.validId(playlistId) {
      return Err(StatusBadRequest, "Invalid playlist ID");
    }
    var access := Authorize(db.playlists, playlistId, user, DeleteForbidden);
    if access.Denied? {
      return Err(access.status, access.message);
    }
    ghost var before := db.playlists;
    var i := access.index;
    db.playlists := RemoveAt(db.playlists, i);
    forall q | q in db.playlists ensures q.id != playlistId {
      var k :| 0 <= k < |db.playlists| && db.playlists[k] == q;
      if k < i {
        assert before[k].id != before[i].id;
      } else {
        assert before[k + 1].id != before[i].id;
      }
    }
    r := Ok(StatusOk, (), "Playlist deleted successfully");
  }

  /** The name or description an update leaves: the trimmed new value when one was
      supplied and is non-empty, the old value otherwise. */
  function Updated(current: string, supplied: Option<string>): (r: string)
    ensures Truthy(supplied) ==> r == Trim(supplied.value)
    ensures !Truthy(supplied) ==> r == current
    ensures Truthy(supplied) && Blank(supplied.value) ==> r == ""
  {
    if Truthy(supplied) then Trim(supplied.value) else current
  }

  /** `updatePlaylist`. Guards in order: malformed id (400), no such playlist (404), not
      the owner (403). Otherwise only the supplied, non-empty fields change, trimmed;
      owner and videos stay. */
  method UpdatePlaylist(db: Store, user: Id, playlistId: Id, name: Option<string>, description: Option<string>)
    returns (r: Response<Playlist>)
    requires db.Valid()
    modifies db`playlists
    ensures db.Valid()
    ensures r.Err? ==> db.playlists == old(db.playlists)
    ensures !db.validId(playlistId) ==> r == Err(StatusBadRequest, "Invalid playlist ID")
    ensures db.validId(playlistId) ==>
      match Authorize(old(db.playlists), playlistId, user, UpdateForbidden)
      case Denied(code, msg) => r == Err(code, msg)
      case Granted(i) =>
        var p := old(db.playlists)[i];
        var p' := p.(name := Updated(p.name, name), description := Updated(p.description, description));
        && r == Ok(StatusOk, p', "Playlist updated successfully")
        && db.playlists == old(db.playlists)[i := p']
        && p'.owner == p.owner && p'.videos == p.videos && p'.id == p.id
  {
    if !db.validId(playlistId) {
      return Err(StatusBadRequest, "Invalid playlist ID");
    }
    var access := Authorize(db.playlists, playlistId, user, UpdateForbidden);
    if access.Denied? {
      return Err(access.status, access.message);
    }
    var i := access.index;
    var p := db.playlists[i];
    var p' := p.(name := Updated(p.name, name), description := Updated(p.description, description));
    db.playlists := db.playlists[i := p'];
    r := Ok(StatusOk, p', "Playlist updated successfully");
  }

  /** A client of the handlers: adding a video the playlist does not list and removing
      it again leaves the playlist collection as it was. */
  method AddThenRemoveRestores(db: Store, user: Id, playlistId: Id, videoId: Id)
    returns (added: Response<Playlist>, removed: Response<Playlist>)
    requires db.Valid()
    modifies db`playlists
    ensures db.Valid()
    ensures added.Ok? ==> removed.Ok? && db.playlists == old(db.playlists)
  {
    ghost var before := db.playlists;
    added := AddVideoToPlaylist(db, user, playlistId, videoId);
    if added.Ok? {
      assert db.validId(playlistId) && db.validId(videoId);
      ghost var i := Authorize(before, playlistId, user, ModifyForbidden).index;
      ghost var mid := before[i].(videos := before[i].videos + [videoId]);
      AddedThenRemoved(before, playlistId, user, videoId);
      assert db.playlists == before[i := mid];
      removed := RemoveVideoFromPlaylist(db, user, playlistId, videoId);
    } else {
      removed := RemoveVideoFromPlaylist(db, user, playlistId, videoId);
    }
  }

  /** The playlist states behind `AddThenRemoveRestores`: after the video is appended the
      same playlist is still granted, and filtering the video out restores the collection. */
  lemma AddedThenRemoved(playlists: seq<Playlist>, playlistId: Id, user: Id, videoId: Id)
    requires Authorize(playlists, playlistId, user, ModifyForbidden).Granted?
    requires videoId !in playlists[Authorize(playlists, playlistId, user, ModifyForbidden).index].videos
    ensures var i := Authorize(playlists, playlistId, user, ModifyForbidden).index;
      var mid := playlists[i].(videos := playlists[i].videos + [videoId]);
      && Authorize(playlists[i := mid], playlistId, user, ModifyForbidden) == Granted(i)
      && playlists[i := mid][i := mid.(videos := Without(mid.videos, videoId))] == playlists
  {
    var i := Authorize(playlists, playlistId, user, ModifyForbidden).index;
    var p := playlists[i];
    var mid := p.(videos := p.videos + [videoId]);
    AuthorizeAfterEdit(playlists, playlistId, user, ModifyForbidden, mid);
    AddThenRemove(p.videos, videoId);
    assert mid.(videos := Without(mid.videos, videoId)) == p;
    assert playlists[i := mid][i := p] == playlists;
  }

  /** Editing the granted playlist without touching its id or owner keeps the access
      decision. */
  lemma AuthorizeAfterEdit(playlists: seq<Playlist>, playlistId: Id, user: Id, forbidden: string, q: Playlist)
    requires Authorize(playlists, playlistId, user, forbidden).Granted?
    requires var i := Authorize(playlists, playlistId, user, forbidden).index;
      q.id == playlists[i].id && q.owner == playlists[i].owner
    ensures var i := Authorize(playlists, playlistId, user, forbidden).index;
      Authorize(playlists[i := q], playlistId, user, forbidden) == Granted(i)
  {
    var i := FindPlaylist(playlists, playlistId).value;
    var edited := playlists[i := q];
    assert forall j :: 0 <= j < i ==> edited[j].id != playlistId;
    assert edited[i].id == playlistId;
    var k := FindPlaylist(edited, playlistId);
    assert k.Some?;
    assert !(k.value < i);
    assert !(k.value > i);
  }
}
