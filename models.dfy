/** The three record schemas of the document store: Room, Track and
    Playlist (with its embedded track list). Each `New…` function is the
    store's `create`: it applies the schema's `required` validators (a
    required string must be present and non-empty) and fills the defaults. */
module Models {
  import opened Base

  /** Milliseconds since the epoch; the handlers receive the clock reading as a parameter. */
  type Time = int

  datatype Room = Room(
    roomId: string,           // required, unique
    creatorAddress: string,   // required
    title: string,            // required
    description: Option<string>,
    createdAt: Time,          // default: creation time
    currentTrack: Json,       // default: null
    currentSeek: real,        // default: 0; documented as a fraction, never range-checked
    lastUpdated: Time)        // default: creation time

  datatype Track = Track(
    roomId: string,           // required
    title: string,            // required
    url: string,              // required
    addedBy: string,          // required
    playedAt: Option<Time>,   // default: null
    createdAt: Time)          // default: creation time

  /** An element of a playlist's embedded `tracks` array; none of its fields is required. */
  datatype PlaylistTrack = PlaylistTrack(
    title: string,
    url: string,
    addedBy: string,
    playedAt: Option<Time>)   // default: null

  datatype Playlist = Playlist(
    id: nat,                  // the store's `_id`
    roomId: string,           // required, not unique
    title: string,            // required
    description: Option<string>,
    createdBy: string,        // required
    tracks: seq<PlaylistTrack>,
    createdAt: Time)          // default: creation time

  /** The outcome of `Model.create`: the new record, or a validation error. */
  datatype Created<T> = Valid(record: T) | ValidationError

  /** A required String path accepts a present, non-empty string. */
  predicate Required(s: string) { s != "" }

  predicate RoomOk(r: Room) {
    Required(r.roomId) && Required(r.creatorAddress) && Required(r.title)
  }

  predicate TrackOk(t: Track) {
    Required(t.roomId) && Required(t.title) && Required(t.url) && Required(t.addedBy)
  }

  predicate PlaylistOk(p: Playlist) {
    Required(p.roomId) && Required(p.title) && Required(p.createdBy)
  }

  /** `Room.create({roomId, creatorAddress, title, description})`. */
  function NewRoom(roomId: Option<string>, creatorAddress: Option<string>, title: Option<string>,
                   description: Option<string>, now: Time): (c: Created<Room>)
    ensures c.Valid? <==> Present(roomId) && Present(creatorAddress) && Present(title)
    ensures c.Valid? ==> (RoomOk(c.record)
      && c.record.roomId == roomId.value && c.record.creatorAddress == creatorAddress.value
      && c.record.title == title.value && c.record.description == description)
    ensures c.Valid? ==> (c.record.currentTrack == JNull && c.record.currentSeek == 0.0
      && c.record.createdAt == now && c.record.lastUpdated == now)
  {
    if Present(roomId) && Present(creatorAddress) && Present(title) then
      Valid(Room(roomId.value, creatorAddress.value, title.value, description, now, JNull, 0.0, now))
    else
      ValidationError
  }

  /** `Track.create({roomId, title, url, addedBy})`. */
  function NewTrack(roomId: string, title: Option<string>, url: Option<string>,
                    addedBy: Option<string>, now: Time): (c: Created<Track>)
    ensures c.Valid? <==> Required(roomId) && Present(title) && Present(url) && Present(addedBy)
    ensures c.Valid? ==> (TrackOk(c.record) && c.record.roomId == roomId
      && c.record.title == title.value && c.record.url == url.value && c.record.addedBy == addedBy.value)
    ensures c.Valid? ==> c.record.playedAt == None && c.record.createdAt == now
  {
    if Required(roomId) && Present(title) && Present(url) && Present(addedBy) then
      Valid(Track(roomId, title.value, url.value, addedBy.value, None, now))
    else
      ValidationError
  }

  /** `Playlist.create({roomId, title, description, createdBy, tracks: []})`,
      given the `_id` the store assigns. */
  function NewPlaylist(id: nat, roomId: string, title: Option<string>, description: Option<string>,
                       createdBy: Option<string>, now: Time): (c: Created<Playlist>)
    ensures c.Valid? <==> Required(roomId) && Present(title) && Present(createdBy)
    ensures c.Valid? ==> (PlaylistOk(c.record) && c.record.id == id && c.record.roomId == roomId
      && c.record.title == title.value && c.record.description == description
      && c.record.createdBy == createdBy.value)
    ensures c.Valid? ==> c.record.tracks == [] && c.record.createdAt == now
  {
    if Required(roomId) && Present(title) && Present(createdBy) then
      Valid(Playlist(id, roomId, title.value, description, createdBy.value, [], now))
    else
      ValidationError
  }
}
