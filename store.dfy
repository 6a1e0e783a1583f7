/** The document store as in-memory collections, the consistency the
    schemas demand of it (every record valid, `Room.roomId` unique), and the
    queries the HTTP handlers issue: filtering by `roomId`, sorting by
    `createdAt`, and finding the first document in natural order that
    matches a filter. */
module Store {
  import opened Base
  import opened Models

  /** What an HTTP handler answers: the JSON body it sends, or an error status. */
  datatype Reply<T> = Done(value: T) | Status(code: int)

  /** The collections are consistent: rooms are keyed by their unique
      `roomId`, a playlist's `_id` is its position in the collection, and
      every stored record passes its schema's validators. */
  ghost predicate Consistent(rooms: map<string, Room>, tracks: seq<Track>, playlists: seq<Playlist>) {
    && (forall k :: k in rooms ==> rooms[k].roomId == k && RoomOk(rooms[k]))
    && (forall i :: 0 <= i < |tracks| ==> TrackOk(tracks[i]))
    && (forall i :: 0 <= i < |playlists| ==> playlists[i].id == i && PlaylistOk(playlists[i]))
  }

  class Database {
    var rooms: map<string, Room>     // the Room collection, keyed by its unique index
    var tracks: seq<Track>           // the Track collection in natural order
    var playlists: seq<Playlist>     // the Playlist collection in natural order

    ghost predicate Valid()
      reads this
    {
      Consistent(rooms, tracks, playlists)
    }

    constructor ()
      ensures Valid()
      ensures rooms == map[] && tracks == [] && playlists == []
    {
      rooms, tracks, playlists := map[], [], [];
    }
  }

  /** Unlike `Room.roomId`, `Playlist.roomId` carries no unique index: a
      well-formed playlist with the next id can be added to any consistent
      store, whether or not its room already has playlists. */
  lemma PlaylistRoomIdNotUnique(rooms: map<string, Room>, tracks: seq<Track>, playlists: seq<Playlist>, p: Playlist)
    requires Consistent(rooms, tracks, playlists)
    requires PlaylistOk(p) && p.id == |playlists|
    ensures Consistent(rooms, tracks, playlists + [p])
  {
  }

  // ---------------------------------------------------------------------
  // Queries

  /** `Track.find({roomId})`: the tracks of one room in natural order. */
  function TracksOf(tracks: seq<Track>, roomId: string): (r: seq<Track>)
    ensures forall t :: multiset(r)[t] == if t.roomId == roomId then multiset(tracks)[t] else 0
  {
    if tracks == [] then []
    else
      var rest := TracksOf(tracks[1..], roomId);
      assert tracks == [tracks[0]] + tracks[1..];
      if tracks[0].roomId == roomId then [tracks[0]] + rest else rest
  }

  /** `Playlist.find({roomId})`: the playlists of one room in natural order. */
  function PlaylistsOf(playlists: seq<Playlist>, roomId: string): (r: seq<Playlist>)
    ensures forall p :: multiset(r)[p] == if p.roomId == roomId then multiset(playlists)[p] else 0
  {
    if playlists == [] then []
    else
      var rest := PlaylistsOf(playlists[1..], roomId);
      assert playlists == [playlists[0]] + playlists[1..];
      if playlists[0].roomId == roomId then [playlists[0]] + rest else rest
  }

  predicate SortedBy<T>(s: seq<T>, key: T -> int) {
    forall i, j :: 0 <= i < j < |s| ==> key(s[i]) <= key(s[j])
  }

  function Insert<T>(x: T, s: seq<T>, key: T -> int): (r: seq<T>)
    requires SortedBy(s, key)
    ensures SortedBy(r, key)
    ensures multiset(r) == multiset(s) + multiset{x}
  {
    if s == [] then [x]
    else if key(x) <= key(s[0]) then
      ConsSorted(x, s, key);
      [x] + s
    else
      var rest := Insert(x, s[1..], key);
      assert s == [s[0]] + s[1..];
      KeysAbove(key(s[0]), rest, s[1..], x, key);
      ConsSorted(s[0], rest, key);
      [s[0]] + rest
  }

  /** An element no greater than the head of a sorted list may go in front. */
  lemma ConsSorted<T>(a: T, s: seq<T>, key: T -> int)
    requires SortedBy(s, key)
    requires s == [] || key(a) <= key(s[0])
    ensures SortedBy([a] + s, key)
  {
    var r := [a] + s;
    forall i, j | 0 <= i < j < |r|
      ensures key(r[i]) <= key(r[j])
    {
      if i > 0 {
        assert r[i] == s[i - 1] && r[j] == s[j - 1];
      } else {
        assert r[j] == s[j - 1];
      }
    }
  }

  /** A lower bound on the keys of `pool` and of `x` bounds every key of a
      permutation of `pool` plus `x`. */
  lemma KeysAbove<T>(lo: int, rest: seq<T>, pool: seq<T>, x: T, key: T -> int)
    requires multiset(rest) == multiset(pool) + multiset{x}
    requires lo <= key(x) && forall k :: 0 <= k < |pool| ==> lo <= key(pool[k])
    ensures forall j :: 0 <= j < |rest| ==> lo <= key(rest[j])
  {
    forall j | 0 <= j < |rest|
      ensures lo <= key(rest[j])
    {
      assert rest[j] in multiset(rest);
      if rest[j] != x {
        assert rest[j] in multiset(pool);
        var k :| 0 <= k < |pool| && pool[k] == rest[j];
      }
    }
  }

  /** `.sort({field: 1})` with `key` giving the field: ascending by key, a
      permutation of the input. */
  function SortBy<T>(s: seq<T>, key: T -> int): (r: seq<T>)
    ensures SortedBy(r, key)
    ensures multiset(r) == multiset(s)
  {
    if s == [] then []
    else
      assert s == [s[0]] + s[1..];
      Insert(s[0], SortBy(s[1..], key), key)
  }

  function TrackCreatedAt(t: Track): int { t.createdAt }

  /** The sort key of `.sort({createdAt: -1})`. */
  function RoomNewestFirst(r: Room): int { -r.createdAt }

  /** `Track.findOneAndUpdate({roomId, url}, …)`: the first track in
      natural order matching the filter. */
  function FirstTrackWith(tracks: seq<Track>, roomId: string, url: string): (i: Option<nat>)
    ensures i.Some? ==> (i.value < |tracks|
      && tracks[i.value].roomId == roomId && tracks[i.value].url == url)
    ensures forall j :: (0 <= j < |tracks| && (i.None? || j < i.value)
      ==> !(tracks[j].roomId == roomId && tracks[j].url == url))
  {
    if tracks == [] then None
    else if tracks[0].roomId == roomId && tracks[0].url == url then Some(0)
    else
      var rest := FirstTrackWith(tracks[1..], roomId, url);
      if rest.Some? then Some(rest.value + 1) else None
  }

  predicate HasUrl(p: Playlist, url: string) {
    exists k :: 0 <= k < |p.tracks| && p.tracks[k].url == url
  }

  /** `Playlist.updateOne({roomId, "tracks.url": url}, …)`: the first
      playlist in natural order that matches the filter. */
  function FirstPlaylistWith(playlists: seq<Playlist>, roomId: string, url: string): (i: Option<nat>)
    ensures i.Some? ==> (i.value < |playlists|
      && playlists[i.value].roomId == roomId && HasUrl(playlists[i.value], url))
    ensures forall j :: (0 <= j < |playlists| && (i.None? || j < i.value)
      ==> !(playlists[j].roomId == roomId && HasUrl(playlists[j], url)))
  {
    if playlists == [] then None
    else if playlists[0].roomId == roomId && HasUrl(playlists[0], url) then Some(0)
    else
      var rest := FirstPlaylistWith(playlists[1..], roomId, url);
      if rest.Some? then Some(rest.value + 1) else None
  }

  /** The element the positional operator `tracks.$` designates: the
      first embedded track whose `url` matched. */
  function FirstUrl(tracks: seq<PlaylistTrack>, url: string): (k: Option<nat>)
    ensures k.Some? ==> k.value < |tracks| && tracks[k.value].url == url
    ensures forall j :: 0 <= j < |tracks| && (k.None? || j < k.value) ==> tracks[j].url != url
  {
    if tracks == [] then None
    else if tracks[0].url == url then Some(0)
    else
      var rest := FirstUrl(tracks[1..], url);
      if rest.Some? then Some(rest.value + 1) else None
  }
}
