/** The HTTP room and track handlers of the relay server: `POST /api/rooms`,
    `GET /api/rooms`, `GET /api/rooms/:roomId`, `POST
    /api/rooms/:roomId/tracks` and `POST /api/rooms/:roomId/played`. Each is
    one atomic step over the document store: validate the body, look up,
    write. Body fields are absent (`None`) or strings; `roomId` stands for
    the path parameter, which the router never matches empty. */
module ServerApi {
  import opened Base
  import opened Models
  import opened Store

  /** `POST /api/rooms`: 400 unless `creatorAddress`, `roomId` and `title`
      are all given; a `roomId` already taken violates the unique index and
      answers 500; otherwise the new room with its defaults is stored. */
  method CreateRoom(db: Database, roomId: Option<string>, creatorAddress: Option<string>,
                    title: Option<string>, description: Option<string>, now: Time)
    returns (res: Reply<Room>)
    requires db.Valid()
    modifies db
    ensures db.Valid()
    ensures !(Present(creatorAddress) && Present(roomId) && Present(title)) ==>
      res == Status(400) && unchanged(db)
    ensures Present(creatorAddress) && Present(roomId) && Present(title) && roomId.value in old(db.rooms) ==>
      res == Status(500) && unchanged(db)
    ensures Present(creatorAddress) && Present(roomId) && Present(title) && roomId.value !in old(db.rooms) ==>
      && res.Done?
      && res.value == NewRoom(roomId, creatorAddress, title, description, now).record
      && db.rooms == old(db.rooms)[roomId.value := res.value]
      && db.tracks == old(db.tracks) && db.playlists == old(db.playlists)
  {
    if !Present(creatorAddress) || !Present(roomId) || !Present(title) {
      return Status(400);
    }
    var created := NewRoom(roomId, creatorAddress, title, description, now);
    if roomId.value in db.rooms {
      return Status(500);
    }
    db.rooms := db.rooms[roomId.value := created.record];
    res := Done(created.record);
  }

  /** `GET /api/rooms`: every stored room, newest first. */
  method ListRooms(db: Database) returns (rs: seq<Room>)
    requires db.Valid()
    ensures |rs| == |db.rooms|
    ensures forall r :: multiset(rs)[r] == if r in db.rooms.Values then 1 else 0
    ensures SortedBy(rs, RoomNewestFirst)
  {
    var pending := db.rooms.Keys;
    var acc: seq<Room> := [];
    ghost var order: seq<string> := [];
    while pending != {}
      invariant Collected(db.rooms, pending, acc, order)
      invariant |acc| + |pending| == |db.rooms.Keys|
      decreases |pending|
    {
      var k :| k in pending;
      assert db.rooms[k].roomId == k;
      CollectStep(db.rooms, pending, acc, order, k);
      acc := acc + [db.rooms[k]];
      order := order + [k];
      pending := pending - {k};
    }
    assert Collected(db.rooms, {}, acc, order);
    EachRoomOnce(db.rooms, acc, order);
    rs := SortBy(acc, RoomNewestFirst);
  }

  /** The loop state of ListRooms: `acc` holds, in the order of the keys in
      `order`, the room of every key no longer pending, each once. */
  ghost predicate Collected(rooms: map<string, Room>, pending: set<string>, acc: seq<Room>, order: seq<string>) {
    && pending <= rooms.Keys
    && |order| == |acc|
    && (forall i :: 0 <= i < |acc| ==> order[i] in rooms && acc[i] == rooms[order[i]])
    && (forall i :: 0 <= i < |acc| ==> order[i] !in pending && acc[i].roomId == order[i])
    && (forall k :: k in rooms && k !in pending ==> k in order)
    && Distinct(acc)
  }

  /** Taking one pending key, whose room carries that key as its id, keeps
      the loop state. */
  lemma CollectStep(rooms: map<string, Room>, pending: set<string>, acc: seq<Room>, order: seq<string>, k: string)
    requires Collected(rooms, pending, acc, order) && k in pending
    requires rooms[k].roomId == k
    ensures Collected(rooms, pending - {k}, acc + [rooms[k]], order + [k])
  {
    assert forall i :: 0 <= i < |acc| ==> acc[i].roomId != k;
  }

  /** Rooms collected one per key, without repetition, hold every stored
      room exactly once. */
  lemma EachRoomOnce(rooms: map<string, Room>, acc: seq<Room>, order: seq<string>)
    requires |order| == |acc| && Distinct(acc)
    requires forall i :: 0 <= i < |acc| ==> order[i] in rooms && acc[i] == rooms[order[i]]
    requires forall k :: k in rooms ==> k in order
    ensures forall r :: multiset(acc)[r] == if r in rooms.Values then 1 else 0
  {
    forall r | r in rooms.Values
      ensures r in acc
    {
      var k :| k in rooms && rooms[k] == r;
      var i :| 0 <= i < |order| && order[i] == k;
      assert acc[i] == r;
    }
    DistinctCount(acc);
  }

  /** `GET /api/rooms/:roomId`: 404 for an unknown room, otherwise the room
      and exactly its tracks, oldest first. */
  method GetRoom(db: Database, roomId: string) returns (res: Reply<(Room, seq<Track>)>)
    ensures res.Status? <==> roomId !in db.rooms
    ensures res.Status? ==> res.code == 404
    ensures res.Done? ==> (res.value.0 == db.rooms[roomId]
      && SortedBy(res.value.1, TrackCreatedAt)
      && forall t :: multiset(res.value.1)[t] == if t.roomId == roomId then multiset(db.tracks)[t] else 0)
  {
    if roomId !in db.rooms {
      return Status(404);
    }
    var tracks := SortBy(TracksOf(db.tracks, roomId), TrackCreatedAt);
    res := Done((db.rooms[roomId], tracks));
  }

  /** `POST /api/rooms/:roomId/tracks`: 400 unless `title`, `url` and
      `addedBy` are given; otherwise a new track is stored, whether or not
      the room exists. */
  method AddTrack(db: Database, roomId: string, title: Option<string>, url: Option<string>,
                  addedBy: Option<string>, now: Time)
    returns (res: Reply<Track>)
    requires db.Valid() && roomId != ""
    modifies db
    ensures db.Valid()
    ensures !(Present(title) && Present(url) && Present(addedBy)) ==> res == Status(400) && unchanged(db)
    ensures Present(title) && Present(url) && Present(addedBy) ==>
      && res.Done?
      && res.value == NewTrack(roomId, title, url, addedBy, now).record
      && db.tracks == old(db.tracks) + [res.value]
      && db.rooms == old(db.rooms) && db.playlists == old(db.playlists)
  {
    if !Present(title) || !Present(url) || !Present(addedBy) {
      return Status(400);
    }
    var created := NewTrack(roomId, title, url, addedBy, now);
    db.tracks := db.tracks + [created.record];
    res := Done(created.record);
  }

  /** `POST /api/rooms/:roomId/played`: the first track of the room with
      that `url` gets `playedAt = now` and is returned; with no such track
      the answer is `null` and nothing changes. */
  method MarkTrackPlayed(db: Database, roomId: string, url: Option<string>, now: Time)
    returns (res: Option<Track>)
    requires db.Valid()
    modifies db
    ensures db.Valid()
    ensures db.rooms == old(db.rooms) && db.playlists == old(db.playlists)
    ensures var i := if url.Some? then FirstTrackWith(old(db.tracks), roomId, url.value) else None;
      && (i.None? ==> res.None? && db.tracks == old(db.tracks))
      && (i.Some? ==> res == Some(old(db.tracks)[i.value].(playedAt := Some(now)))
                      && db.tracks == old(db.tracks)[i.value := res.value])
  {
    if url.None? {
      return None;
    }
    var i := FirstTrackWith(db.tracks, roomId, url.value);
    if i.None? {
      return None;
    }
    var updated := db.tracks[i.value].(playedAt := Some(now));
    db.tracks := db.tracks[i.value := updated];
    res := Some(updated);
  }
}
