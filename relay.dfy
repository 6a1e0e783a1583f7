/** The real-time room relay: a registry of open connections per room, a
    resync push to each new connection, persistence of `media-change` and
    `seek` into the stored Room, and fan-out of every parsed message to the
    other open connections of the sender's room. Each handler
    (`connection`, `message`, `close`) is one atomic step and returns the
    frames it writes, as (recipient, message) deliveries in send order. */
module Relay {
  import opened Base
  import opened Models
  import opened Store

  /** A connection: the transport hands the relay a new one on each upgrade. */
  type ConnId = nat

  datatype Delivery = Delivery(to: ConnId, msg: Json)

  /** `urlParams.get("roomId") || "default"`: the room a connection is bound
      to for its whole life. */
  function BoundRoom(query: Option<string>): (r: string)
    ensures r != ""
    ensures Present(query) ==> r == query.value
    ensures !Present(query) ==> r == "default"
  {
    if Present(query) then query.value else "default"
  }

  // ---------------------------------------------------------------------
  // Registry

  /** The registry's shape: every room entry is a non-empty set of
      connections (in insertion order), and each connection sits in exactly
      the room it is bound to. */
  ghost predicate Registered(active: map<string, seq<ConnId>>, roomOf: map<ConnId, string>) {
    && (forall r :: r in active ==> active[r] != [] && Distinct(active[r]))
    && (forall r, c :: r in active && c in active[r] ==> c in roomOf && roomOf[c] == r)
    && (forall c :: c in roomOf ==> roomOf[c] in active && c in active[roomOf[c]])
  }

  /** A fresh connection added at the end of its room's set keeps the
      registry well formed. */
  lemma RegisterKeepsShape(active: map<string, seq<ConnId>>, roomOf: map<ConnId, string>, c: ConnId, r: string)
    requires Registered(active, roomOf) && c !in roomOf
    ensures var members := if r in active then active[r] else [];
      c !in members && Registered(active[r := members + [c]], roomOf[c := r])
  {
    var members := if r in active then active[r] else [];
    var grown := members + [c];
    assert Distinct(grown) by {
      assert forall i :: 0 <= i < |members| ==> grown[i] == members[i] && members[i] != c;
    }
    assert forall x :: x in grown <==> x in members || x == c;
  }

  // ---------------------------------------------------------------------
  // Resync on connect

  /** The `sync-state` message a new connection receives: the room's id,
      its stored track under `url` and its position under `seek`. */
  function SyncState(roomId: string, room: Room): (m: Json)
    ensures m.JObj? && m.fields.Keys == {"type", "roomId", "url", "seek"}
    ensures Field(m, "type") == Defined(JStr("sync-state")) && Field(m, "roomId") == Defined(JStr(roomId))
    ensures Field(m, "url") == Defined(room.currentTrack) && Field(m, "seek") == Defined(JNum(room.currentSeek))
  {
    JObj(map["type" := JStr("sync-state"), "roomId" := JStr(roomId),
             "url" := room.currentTrack, "seek" := JNum(room.currentSeek)])
  }

  /** What connecting writes: one `sync-state`, to the new connection only,
      exactly when the stored room has a current track. */
  function Resync(c: ConnId, roomId: string, rooms: map<string, Room>): (out: seq<Delivery>)
    ensures |out| <= 1
    ensures |out| == 1 <==> roomId in rooms && Truthy(Defined(rooms[roomId].currentTrack))
    ensures forall d :: d in out ==> (d.to == c && roomId in rooms
      && Field(d.msg, "type") == Defined(JStr("sync-state")) && Field(d.msg, "roomId") == Defined(JStr(roomId))
      && Field(d.msg, "url") == Defined(rooms[roomId].currentTrack)
      && Field(d.msg, "seek") == Defined(JNum(rooms[roomId].currentSeek)))
  {
    if roomId in rooms && Truthy(Defined(rooms[roomId].currentTrack)) then
      [Delivery(c, SyncState(roomId, rooms[roomId]))]
    else []
  }

  // ---------------------------------------------------------------------
  // Persistence

  /** `data.type === "media-change" && data.url`. */
  predicate IsMediaChange(data: Json) {
    IsStr(Field(data, "type"), "media-change") && Truthy(Field(data, "url"))
  }

  /** `data.type === "seek" && typeof data.time === "number"`. */
  predicate IsSeek(data: Json) {
    IsStr(Field(data, "type"), "seek") && IsNumber(Field(data, "time"))
  }

  /** What the store's String cast makes of a `currentTrack` value, or
      `None` when the cast throws: a string is kept as sent; a boolean
      becomes "true" or "false"; an object whose `_id` is a non-empty
      string becomes that `_id`; every array, and every other object, is
      refused. A number is kept as a number (its decimal string form is
      not modelled). */
  function StringCast(v: Json): (r: Option<Json>)
    ensures v.JStr? || v.JNum? || v.JBool? || v.JNull? ==> r.Some?
    ensures v.JArr? ==> r.None?
    ensures v.JObj? ==> (r.Some? <==> "_id" in v.fields && Truthy(Defined(v.fields["_id"])) && v.fields["_id"].JStr?)
    ensures r.Some? && !v.JNum? && !v.JNull? ==> r.value.JStr?
    ensures v.JStr? ==> r == Some(v)
    ensures v.JBool? ==> r == Some(JStr(if v.b then "true" else "false"))
    ensures v.JObj? && r.Some? ==> r == Some(v.fields["_id"])
  {
    match v
    case JNull => Some(v)
    case JStr(_) => Some(v)
    case JNum(_) => Some(v)
    case JBool(b) => Some(JStr(if b then "true" else "false"))
    case JArr(_) => None
    case JObj(f) => if "_id" in f && f["_id"].JStr? && f["_id"].s != "" then Some(f["_id"]) else None
  }

  /** A message whose persistence the store accepts when it is up. */
  predicate WritesTrack(data: Json) {
    IsMediaChange(data) && StringCast(Field(data, "url").value).Some?
  }

  /** The outcome of the persistence step: the Room collection afterwards,
      and whether the handler goes on to broadcast (it does not when an
      exception was thrown and caught). */
  datatype Handled = Handled(rooms: map<string, Room>, broadcast: bool)

  /** Only the playback fields of one stored room may differ. */
  ghost predicate PlaybackOnly(before: map<string, Room>, after: map<string, Room>, roomId: string) {
    && after.Keys == before.Keys
    && (forall k :: k in before && k != roomId ==> after[k] == before[k])
    && (roomId in before ==> after[roomId] == before[roomId].(currentTrack := after[roomId].currentTrack,
                                                             currentSeek := after[roomId].currentSeek,
                                                             lastUpdated := after[roomId].lastUpdated))
  }

  /** The persistence half of the `message` handler for a connection bound
      to `roomId`. Reading a property of `null` throws; a store call that
      throws (`storeFails`, or a `url` the String cast refuses) is caught.
      Either way nothing is written and nothing is broadcast. No sender
      identity is consulted and `time` is stored as sent. Updates match no
      document for an unknown room and create none. */
  function Persist(roomId: string, rooms: map<string, Room>, data: Json, now: Time, storeFails: bool): (h: Handled)
    ensures PlaybackOnly(rooms, h.rooms, roomId)
    ensures h.broadcast <==> (!data.JNull? && !((IsMediaChange(data) || IsSeek(data)) && storeFails)
                             && !(IsMediaChange(data) && StringCast(Field(data, "url").value).None?))
    ensures !h.broadcast ==> h.rooms == rooms
    ensures h.broadcast && WritesTrack(data) && roomId in rooms ==>
      (h.rooms[roomId].currentTrack == StringCast(Field(data, "url").value).value && h.rooms[roomId].currentSeek == 0.0
       && h.rooms[roomId].lastUpdated == now)
    ensures h.broadcast && IsSeek(data) && roomId in rooms ==>
      (h.rooms[roomId].currentTrack == rooms[roomId].currentTrack
       && h.rooms[roomId].currentSeek == Field(data, "time").value.n && h.rooms[roomId].lastUpdated == now)
    ensures !(IsMediaChange(data) || IsSeek(data)) ==> h.rooms == rooms
  {
    if data.JNull? then Handled(rooms, false)
    else if IsMediaChange(data) then
      var url := StringCast(Field(data, "url").value);
      if storeFails || url.None? then Handled(rooms, false)
      else if roomId !in rooms then Handled(rooms, true)
      else Handled(rooms[roomId := rooms[roomId].(currentTrack := url.value, currentSeek := 0.0, lastUpdated := now)], true)
    else if IsSeek(data) then
      if storeFails then Handled(rooms, false)
      else if roomId !in rooms then Handled(rooms, true)
      else Handled(rooms[roomId := rooms[roomId].(currentSeek := Field(data, "time").value.n, lastUpdated := now)], true)
    else Handled(rooms, true)
  }

  lemma PersistKeepsConsistent(roomId: string, db: map<string, Room>, tracks: seq<Track>, playlists: seq<Playlist>,
                               data: Json, now: Time, storeFails: bool)
    requires Consistent(db, tracks, playlists)
    ensures Consistent(Persist(roomId, db, data, now, storeFails).rooms, tracks, playlists)
  {
    var after := Persist(roomId, db, data, now, storeFails).rooms;
    forall k | k in after ensures after[k].roomId == k && RoomOk(after[k]) {
      assert k in db;
    }
  }

  /** The Room collection after the relay, with the store up, persisted
      the messages `msgs` received from connections bound to `roomId`, in
      order. */
  function PersistAll(roomId: string, rooms: map<string, Room>, msgs: seq<Json>, now: Time): map<string, Room>
    decreases |msgs|
  {
    if msgs == [] then rooms
    else PersistAll(roomId, Persist(roomId, rooms, msgs[0], now, false).rooms, msgs[1..], now)
  }

  /** Reference definition: the `url` of the last `media-change` the store
      accepted, as the String cast stores it, or `init` when there was none. */
  function LastTrack(msgs: seq<Json>, init: Json): Json
    decreases |msgs|
  {
    if msgs == [] then init
    else if WritesTrack(msgs[|msgs| - 1]) then StringCast(Field(msgs[|msgs| - 1], "url").value).value
    else LastTrack(msgs[..|msgs| - 1], init)
  }

  /** Reference definition: the position set by the last `seek` or
      `media-change` (which resets it to 0), or `init` when there was none. */
  function LastSeek(msgs: seq<Json>, init: real): real
    decreases |msgs|
  {
    if msgs == [] then init
    else if WritesTrack(msgs[|msgs| - 1]) then 0.0
    else if IsSeek(msgs[|msgs| - 1]) then Field(msgs[|msgs| - 1], "time").value.n
    else LastSeek(msgs[..|msgs| - 1], init)
  }

  lemma {:induction false} PersistAllSnoc(roomId: string, rooms: map<string, Room>, msgs: seq<Json>, m: Json, now: Time)
    ensures PersistAll(roomId, rooms, msgs + [m], now) == Persist(roomId, PersistAll(roomId, rooms, msgs, now), m, now, false).rooms
    decreases |msgs|
  {
    if msgs != [] {
      var next := Persist(roomId, rooms, msgs[0], now, false).rooms;
      assert (msgs + [m])[1..] == msgs[1..] + [m];
      PersistAllSnoc(roomId, next, msgs[1..], m, now);
    }
  }

  /** Processing messages one after another leaves the stored room holding
      the last accepted track and the last position written, whoever sent
      them: the last `media-change` wins, and resets the position to 0. */
  lemma {:induction false} LatestWriteWins(roomId: string, rooms: map<string, Room>, msgs: seq<Json>, now: Time)
    requires roomId in rooms
    ensures var after := PersistAll(roomId, rooms, msgs, now);
      && roomId in after
      && after[roomId].currentTrack == LastTrack(msgs, rooms[roomId].currentTrack)
      && after[roomId].currentSeek == LastSeek(msgs, rooms[roomId].currentSeek)
    decreases |msgs|
  {
    if msgs != [] {
      var init := msgs[..|msgs| - 1];
      var m := msgs[|msgs| - 1];
      assert msgs == init + [m];
      PersistAllSnoc(roomId, rooms, init, m, now);
      LatestWriteWins(roomId, rooms, init, now);
    }
  }

  /** A connection that joins after any history of messages receives one
      `sync-state` carrying the latest accepted track and position, or
      nothing when no track was ever set. */
  lemma LateJoinerSeesLatest(c: ConnId, roomId: string, rooms: map<string, Room>, msgs: seq<Json>, now: Time)
    requires roomId in rooms
    ensures var out := Resync(c, roomId, PersistAll(roomId, rooms, msgs, now));
      && (|out| == 1 <==> Truthy(Defined(LastTrack(msgs, rooms[roomId].currentTrack))))
      && forall d :: d in out ==> (d.to == c
           && Field(d.msg, "url") == Defined(LastTrack(msgs, rooms[roomId].currentTrack))
           && Field(d.msg, "seek") == Defined(JNum(LastSeek(msgs, rooms[roomId].currentSeek))))
  {
    LatestWriteWins(roomId, rooms, msgs, now);
  }

  // ---------------------------------------------------------------------
  // Fan-out

  /** The frames `activeRooms.get(roomId).forEach(...)` writes: the message,
      unchanged, to every member other than the sender whose socket is
      open, in the room's insertion order. */
  function Fanout(members: seq<ConnId>, sender: ConnId, open: set<ConnId>, data: Json): (out: seq<Delivery>)
    ensures |out| <= |members|
    ensures sender in members ==> |out| < |members|
    decreases |members|
  {
    if members == [] then []
    else
      var rest := Fanout(members[..|members| - 1], sender, open, data);
      var c := members[|members| - 1];
      if c != sender && c in open then rest + [Delivery(c, data)] else rest
  }

  /** A delivery is made exactly to an open member other than the sender,
      and carries the message as received. */
  lemma {:induction false} FanoutDelivers(members: seq<ConnId>, sender: ConnId, open: set<ConnId>, data: Json, d: Delivery)
    ensures d in Fanout(members, sender, open, data) <==>
      d.to in members && d.to != sender && d.to in open && d.msg == data
    decreases |members|
  {
    if members != [] {
      var init := members[..|members| - 1];
      FanoutDelivers(init, sender, open, data, d);
      assert members == init + [members[|members| - 1]];
    }
  }

  /** How many frames go to `x`. */
  function CountTo(out: seq<Delivery>, x: ConnId): nat {
    if out == [] then 0
    else CountTo(out[..|out| - 1], x) + (if out[|out| - 1].to == x then 1 else 0)
  }

  /** Each open member other than the sender gets exactly one copy; the
      sender and everyone else get none. */
  lemma {:induction false} FanoutOncePerMember(members: seq<ConnId>, sender: ConnId, open: set<ConnId>, data: Json, x: ConnId)
    requires Distinct(members)
    ensures CountTo(Fanout(members, sender, open, data), x) ==
      if x in members && x != sender && x in open then 1 else 0
    decreases |members|
  {
    if members != [] {
      var init := members[..|members| - 1];
      assert Distinct(init);
      FanoutOncePerMember(init, sender, open, data, x);
      assert members == init + [members[|members| - 1]];
      assert members[|members| - 1] !in init;
      var rest := Fanout(init, sender, open, data);
      var c := members[|members| - 1];
      if c != sender && c in open {
        assert (rest + [Delivery(c, data)])[..|rest|] == rest;
      }
    }
  }

  /** The recipients of a fan-out. */
  function Recipients(out: seq<Delivery>): seq<ConnId> {
    seq(|out|, i requires 0 <= i < |out| => out[i].to)
  }

  /** Routing does not look inside the message: two messages (say, with
      different `roomId` fields) go to the same connections in the same order. */
  lemma {:induction false} FanoutIgnoresContent(members: seq<ConnId>, sender: ConnId, open: set<ConnId>, a: Json, b: Json)
    ensures Recipients(Fanout(members, sender, open, a)) == Recipients(Fanout(members, sender, open, b))
    decreases |members|
  {
    if members != [] {
      var init := members[..|members| - 1];
      FanoutIgnoresContent(init, sender, open, a, b);
      var ra, rb := Fanout(init, sender, open, a), Fanout(init, sender, open, b);
      var c := members[|members| - 1];
      if c != sender && c in open {
        assert Recipients(ra + [Delivery(c, a)]) == Recipients(ra) + [c];
        assert Recipients(rb + [Delivery(c, b)]) == Recipients(rb) + [c];
      }
    }
  }

  /** The `forEach` loop of the `message` handler. */
  method Broadcast(members: seq<ConnId>, sender: ConnId, open: set<ConnId>, data: Json) returns (out: seq<Delivery>)
    ensures out == Fanout(members, sender, open, data)
  {
    out := [];
    var i := 0;
    while i < |members|
      invariant 0 <= i <= |members|
      invariant out == Fanout(members[..i], sender, open, data)
    {
      var c := members[i];
      if c != sender && c in open {
        out := out + [Delivery(c, data)];
      }
      i := i + 1;
      assert members[..i][..i - 1] == members[..i - 1];
    }
    assert members[..|members|] == members;
  }

  // ---------------------------------------------------------------------
  // The relay

  class RoomRelay {
    var activeRooms: map<string, seq<ConnId>>   // roomId -> connections, in insertion order
    var roomOf: map<ConnId, string>             // each connection's room, fixed at connect time
    const db: Database                          // the Room collection it reads and updates

    ghost predicate Valid()
      reads this, db
    {
      Registered(activeRooms, roomOf) && db.Valid()
    }

    constructor (store: Database)
      requires store.Valid()
      ensures Valid()
      ensures db == store && activeRooms == map[] && roomOf == map[]
    {
      db := store;
      activeRooms, roomOf := map[], map[];
    }

    /** `connection`: bind `c` to the query's room (or `"default"`), add it
        to that room's set, creating the set if needed, and push the stored
        playback state to `c` alone. The read of the stored room has no
        `catch`: when it fails (`storeFails`) nothing is pushed, and the
        registration stands. */
    method OnConnection(c: ConnId, query: Option<string>, storeFails: bool) returns (out: seq<Delivery>)
      requires Valid() && c !in roomOf
      modifies this
      ensures Valid()
      ensures var r := BoundRoom(query);
        && roomOf == old(roomOf)[c := r]
        && activeRooms == old(activeRooms)[r := (if r in old(activeRooms) then old(activeRooms)[r] else []) + [c]]
        && out == (if storeFails then [] else Resync(c, r, db.rooms))
    {
      var r := BoundRoom(query);
      var members := if r in activeRooms then activeRooms[r] else [];
      RegisterKeepsShape(activeRooms, roomOf, c, r);
      activeRooms := activeRooms[r := members + [c]];
      roomOf := roomOf[c := r];
      out := if storeFails then [] else Resync(c, r, db.rooms);
    }

    /** `message`: parse, persist, then forward to the other open
        connections of `c`'s room. An unparseable message, a `null`, or a
        store call that throws ends the handler before the broadcast; the
        registry is never touched. */
    method OnMessage(c: ConnId, parsed: Option<Json>, open: set<ConnId>, now: Time, storeFails: bool)
      returns (out: seq<Delivery>)
      requires Valid() && c in roomOf
      modifies db
      ensures Valid()
      ensures db.tracks == old(db.tracks) && db.playlists == old(db.playlists)
      ensures parsed.None? ==> out == [] && db.rooms == old(db.rooms)
      ensures parsed.Some? ==>
        var h := Persist(roomOf[c], old(db.rooms), parsed.value, now, storeFails);
        && db.rooms == h.rooms
        && out == (if h.broadcast then Fanout(activeRooms[roomOf[c]], c, open, parsed.value) else [])
    {
      if parsed.None? {
        return [];
      }
      var r := roomOf[c];
      PersistKeepsConsistent(r, db.rooms, db.tracks, db.playlists, parsed.value, now, storeFails);
      var h := Persist(r, db.rooms, parsed.value, now, storeFails);
      db.rooms := h.rooms;
      if !h.broadcast {
        return [];
      }
      out := Broadcast(activeRooms[r], c, open, parsed.value);
    }

    /** `close`: `c` leaves its room's set, and the room entry goes when
        the set is empty; stored rooms are not touched. */
    method OnClose(c: ConnId)
      requires Valid() && c in roomOf
      modifies this
      ensures Valid()
      ensures var r := old(roomOf[c]);
        var rest := Without(old(activeRooms[r]), c);
        && roomOf == old(roomOf) - {c}
        && activeRooms == (if rest == [] then old(activeRooms) - {r} else old(activeRooms)[r := rest])
      ensures db.rooms == old(db.rooms)
    {
      var r := roomOf[c];
      var rest := Without(activeRooms[r], c);
      if rest == [] {
        activeRooms := activeRooms - {r};
      } else {
        activeRooms := activeRooms[r := rest];
      }
      roomOf := roomOf - {c};
    }
  }
}
