/** The room and playlist router: create a room (idempotently), fetch a room
    with its playlists, move the stored seek position (creator only), create
    and list playlists, append a track to a playlist, and mark a playlist
    track as played (creator only). The relay server never mounts this
    router, so these handlers stand beside the ones in ServerApi over the
    same kind of store. `roomId` is the path parameter, never empty. */
module RoomsRouter {
  import opened Base
  import opened Models
  import opened Store

  /** `POST /`: 400 unless `roomId` and `creatorAddress` are given; an
      existing room is returned as it is; otherwise `Room.create` runs its
      validators, so a missing `title` ends in 500. */
  method CreateRoom(db: Database, roomId: Option<string>, title: Option<string>,
                    description: Option<string>, creatorAddress: Option<string>, now: Time)
    returns (res: Reply<Room>)
    requires db.Valid()
    modifies db
    ensures db.Valid()
    ensures !(Present(roomId) && Present(creatorAddress)) ==> res == Status(400) && unchanged(db)
    ensures Present(roomId) && Present(creatorAddress) && roomId.value in old(db.rooms) ==>
      res == Done(old(db.rooms)[roomId.value]) && unchanged(db)
    ensures Present(roomId) && Present(creatorAddress) && roomId.value !in old(db.rooms) && !Present(title) ==>
      res == Status(500) && unchanged(db)
    ensures Present(roomId) && Present(creatorAddress) && roomId.value !in old(db.rooms) && Present(title) ==>
      && res.Done?
      && res.value == NewRoom(roomId, creatorAddress, title, description, now).record
      && db.rooms == old(db.rooms)[roomId.value := res.value]
      && db.tracks == old(db.tracks) && db.playlists == old(db.playlists)
  {
    if !Present(roomId) || !Present(creatorAddress) {
      return Status(400);
    }
    if roomId.value in db.rooms {
      return Done(db.rooms[roomId.value]);
    }
    var created := NewRoom(roomId, creatorAddress, title, description, now);
    if created.ValidationError? {
      return Status(500);
    }
    db.rooms := db.rooms[roomId.value := created.record];
    res := Done(created.record);
  }

  /** Creating the same room twice: the second call answers with the room
      the first one produced and writes nothing. */
  method CreateRoomTwice(db: Database, roomId: Option<string>, title: Option<string>,
                         description: Option<string>, creatorAddress: Option<string>, now: Time, later: Time)
    returns (first: Reply<Room>, second: Reply<Room>)
    requires db.Valid()
    modifies db
    ensures first.Done? ==> second == first
    ensures first.Done? ==> roomId.Some? && db.rooms == old(db.rooms)[roomId.value := first.value]
  {
    first := CreateRoom(db, roomId, title, description, creatorAddress, now);
    ghost var afterFirst := db.rooms;
    second := CreateRoom(db, roomId, title, description, creatorAddress, later);
    assert first.Done? ==> db.rooms == afterFirst;
  }

  /** `GET /:roomId`: 404 for an unknown room, otherwise the room and
      exactly the playlists that name it. */
  method GetRoom(db: Database, roomId: string) returns (res: Reply<(Room, seq<Playlist>)>)
    ensures res.Status? <==> roomId !in db.rooms
    ensures res.Status? ==> res.code == 404
    ensures res.Done? ==> (res.value.0 == db.rooms[roomId]
      && forall p :: multiset(res.value.1)[p] == if p.roomId == roomId then multiset(db.playlists)[p] else 0)
  {
    if roomId !in db.rooms {
      return Status(404);
    }
    res := Done((db.rooms[roomId], PlaylistsOf(db.playlists, roomId)));
  }

  /** The checks seek and mark-played share, in their fixed order: a bad
      payload or missing `address` is 400, then an unknown room is 404, then
      an `address` that differs from the creator's ignoring case is 403;
      only the creator gets through, and gets the stored room. */
  function CreatorGate(rooms: map<string, Room>, roomId: string, payloadOk: bool,
                       address: Option<string>): (r: Reply<Room>)
    ensures r.Done? <==> (payloadOk && Present(address) && roomId in rooms
                          && SameIgnoringCase(rooms[roomId].creatorAddress, address.value))
    ensures r.Done? ==> r.value == rooms[roomId]
    ensures r.Status? ==> (r.code == 400 <==> !payloadOk || !Present(address))
    ensures r.Status? ==> (r.code == 404 <==> payloadOk && Present(address) && roomId !in rooms)
    ensures r.Status? ==> (r.code == 400 || r.code == 403 || r.code == 404)
  {
    if !payloadOk || !Present(address) then Status(400)
    else if roomId !in rooms then Status(404)
    else if !SameIgnoringCase(rooms[roomId].creatorAddress, address.value) then Status(403)
    else Done(rooms[roomId])
  }

  /** `POST /:roomId/seek`: past the creator gate, only `currentSeek`
      changes, to `time` exactly (no clamping); every refusal writes nothing. */
  method Seek(db: Database, roomId: string, time: Prop, address: Option<string>)
    returns (res: Reply<()>)
    requires db.Valid()
    modifies db
    ensures db.Valid()
    ensures db.tracks == old(db.tracks) && db.playlists == old(db.playlists)
    ensures var gate := CreatorGate(old(db.rooms), roomId, IsNumber(time), address);
      && (gate.Status? ==> res == Status(gate.code) && db.rooms == old(db.rooms))
      && (gate.Done? ==>
            res == Done(()) && db.rooms == old(db.rooms)[roomId := gate.value.(currentSeek := time.value.n)])
  {
    var gate := CreatorGate(db.rooms, roomId, IsNumber(time), address);
    if gate.Status? {
      return Status(gate.code);
    }
    db.rooms := db.rooms[roomId := gate.value.(currentSeek := time.value.n)];
    res := Done(());
  }

  /** `POST /:roomId/playlists`: 400 unless `title` and `address` are
      given; otherwise a playlist with no tracks, created by `address`, is
      stored whether or not the room exists. */
  method CreatePlaylist(db: Database, roomId: string, title: Option<string>,
                        description: Option<string>, address: Option<string>, now: Time)
    returns (res: Reply<Playlist>)
    requires db.Valid() && roomId != ""
    modifies db
    ensures db.Valid()
    ensures !(Present(title) && Present(address)) ==> res == Status(400) && unchanged(db)
    ensures Present(title) && Present(address) ==>
      && res.Done?
      && res.value == NewPlaylist(|old(db.playlists)|, roomId, title, description, address, now).record
      && db.playlists == old(db.playlists) + [res.value]
      && db.rooms == old(db.rooms) && db.tracks == old(db.tracks)
  {
    if !Present(title) || !Present(address) {
      return Status(400);
    }
    var created := NewPlaylist(|db.playlists|, roomId, title, description, address, now);
    db.playlists := db.playlists + [created.record];
    res := Done(created.record);
  }

  /** `GET /:roomId/playlists`: exactly the playlists that name the room. */
  method ListPlaylists(db: Database, roomId: string) returns (ps: seq<Playlist>)
    ensures forall p :: multiset(ps)[p] == if p.roomId == roomId then multiset(db.playlists)[p] else 0
  {
    ps := PlaylistsOf(db.playlists, roomId);
  }

  /** `POST /:roomId/playlists/:playlistId/tracks`: 400 unless `title`,
      `url` and `addedBy` are given, 404 for an unknown playlist id;
      otherwise the track, not yet played, goes at the end of that
      playlist. The room in the path is not consulted. */
  method AddPlaylistTrack(db: Database, roomId: string, playlistId: int, title: Option<string>,
                          url: Option<string>, addedBy: Option<string>)
    returns (res: Reply<Playlist>)
    requires db.Valid()
    modifies db
    ensures db.Valid()
    ensures db.rooms == old(db.rooms) && db.tracks == old(db.tracks)
    ensures !(Present(title) && Present(url) && Present(addedBy)) ==>
      res == Status(400) && db.playlists == old(db.playlists)
    ensures Present(title) && Present(url) && Present(addedBy) && !(0 <= playlistId < |old(db.playlists)|) ==>
      res == Status(404) && db.playlists == old(db.playlists)
    ensures Present(title) && Present(url) && Present(addedBy) && 0 <= playlistId < |old(db.playlists)| ==>
      && res.Done?
      && res.value.tracks == old(db.playlists)[playlistId].tracks
                             + [PlaylistTrack(title.value, url.value, addedBy.value, None)]
      && res.value == old(db.playlists)[playlistId].(tracks := res.value.tracks)
      && db.playlists == old(db.playlists)[playlistId := res.value]
  {
    if !Present(title) || !Present(url) || !Present(addedBy) {
      return Status(400);
    }
    if !(0 <= playlistId < |db.playlists|) {
      return Status(404);
    }
    var p := db.playlists[playlistId];
    var updated := p.(tracks := p.tracks + [PlaylistTrack(title.value, url.value, addedBy.value, None)]);
    db.playlists := db.playlists[playlistId := updated];
    res := Done(updated);
  }

  /** The positional update of mark-played: in the first playlist of the
      room holding a track with `url`, the first such track gets
      `playedAt = now`; every other playlist and track is left as it was,
      and nothing changes when no playlist matches. */
  function MarkPlayedIn(playlists: seq<Playlist>, roomId: string, url: string, now: Time): (r: seq<Playlist>)
    ensures |r| == |playlists|
    ensures FirstPlaylistWith(playlists, roomId, url).None? ==> r == playlists
    ensures forall j :: (0 <= j < |r| && Some(j) != FirstPlaylistWith(playlists, roomId, url)
      ==> r[j] == playlists[j])
    ensures var i := FirstPlaylistWith(playlists, roomId, url);
      i.Some? ==>
        var p := playlists[i.value];
        var k := FirstUrl(p.tracks, url);
        && k.Some?
        && r[i.value] == p.(tracks := p.tracks[k.value := p.tracks[k.value].(playedAt := Some(now))])
  {
    var i := FirstPlaylistWith(playlists, roomId, url);
    if i.None? then playlists
    else
      var p := playlists[i.value];
      var k := FirstUrl(p.tracks, url);
      if k.None? then playlists
      else playlists[i.value := p.(tracks := p.tracks[k.value := p.tracks[k.value].(playedAt := Some(now))])]
  }

  /** `POST /:roomId/played`: the creator gate with `url` as payload, then
      the positional update; success is reported even when no track
      matched. */
  method MarkPlayed(db: Database, roomId: string, url: Option<string>, address: Option<string>, now: Time)
    returns (res: Reply<()>)
    requires db.Valid()
    modifies db
    ensures db.Valid()
    ensures db.rooms == old(db.rooms) && db.tracks == old(db.tracks)
    ensures var gate := CreatorGate(old(db.rooms), roomId, Present(url), address);
      && (gate.Status? ==> res == Status(gate.code) && db.playlists == old(db.playlists))
      && (gate.Done? ==> res == Done(()) && db.playlists == MarkPlayedIn(old(db.playlists), roomId, url.value, now))
  {
    var gate := CreatorGate(db.rooms, roomId, Present(url), address);
    if gate.Status? {
      return Status(gate.code);
    }
    db.playlists := MarkPlayedIn(db.playlists, roomId, url.value, now);
    res := Done(());
  }
}
