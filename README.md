# d-stream: a verified model of the room relay, its HTTP handlers and its clients

d-stream is a shared listening room ("jam"). Its core has five parts:

- a Node back end that keeps MongoDB records of rooms, tracks and playlists;
- a WebSocket relay on that back end. It binds each connection to a room, pushes the stored playback state to a newcomer, stores `media-change` and `seek` messages, and forwards every parsed message to the other open connections of the room;
- two React components that talk through that relay: a group video call (WebRTC signalling) and a group chat;
- a browser-extension popup that turns a pasted room link into a room id and joins that room;
- the three Mongoose schemas (`Room`, `Track`, `Playlist`) and their validation.

The model is written in Dafny and follows the source's own form:

- The store and the relay keep state, so they are classes with `modifies` clauses.
- Each HTTP handler and each client event handler is a method that states its whole effect.
- The decisions the handlers take (validation, routing, the signalling switch, persistence, link parsing) are pure functions.
- The lemmas state what those functions promise.

| file | module | models |
|---|---|---|
| `base.dfy` | `Base` | JSON values, property reads, JavaScript truthiness, `trim`, `toLowerCase`, an insertion-ordered `Set` |
| `models.dfy` | `Models` | the `Room`, `Track` and `Playlist` schemas, their `required` validators and defaults |
| `store.dfy` | `Store` | the collections, their consistency, and the queries the handlers issue (filter, sort, find-first) |
| `server_api.dfy` | `ServerApi` | the `/api/rooms` handlers of the relay server |
| `rooms_router.dfy` | `RoomsRouter` | the room and playlist router, including its creator-only checks |
| `relay.dfy` | `Relay` | the WebSocket relay: registry, resync, persistence, fan-out |
| `video_chat.dfy` | `VideoChat` | the signalling of the group video call |
| `group_chat.dfy` | `GroupChat` | the chat panel and the sender colour hash |
| `popup.dfy` | `Popup` | `extractRoomId` and the Join button of the extension popup |
| `end_to_end.dfy` | `EndToEnd` | the relay and the chat client together |

Model decisions:

- **Time and failures are parameters.** Timestamps arrive as a parameter `now`. A store call that throws arrives as `storeFails`. Randomly generated ids arrive as `id`.
- **Request bodies.** A string field of a request body is `Option<string>`, and `!x` is `!Present(x)`.
- **Parsed messages.** A message is `Option<Json>`, where `None` means `JSON.parse` threw.
- **Reads from `null`.** Reading a property of `null` throws in the source. The model treats it as the same early exit that the source's `try` (or async rejection) produces.
- **Relay state.** The relay's `Set` of connections is a sequence without repetition, in insertion order. Fan-out follows that order.
- **Replies.** Each handler returns what it writes: an HTTP `Reply`, or a sequence of deliveries for the relay.

The relay is a plain forwarder. In particular:

- The relay forwards every parsed message to all other open members of the room. It does not check who sent a `seek`. It does not clamp the position. It does not route `to`-addressed signalling point-to-point. Each client filters by `to` itself.
- The message a newcomer receives is `{type: "sync-state", roomId, url, seek}`. The field is `seek`, not `time`.
- There is no join handshake. The `join` message the clients send is simply relayed like any other.

## Model

| member | source | states |
|---|---|---|
| Models.NewRoom | backend/models/Room.js:4-13 | a Room is created exactly when `roomId`, `creatorAddress` and `title` are present and non-empty; it carries them, `currentTrack` null, `currentSeek` 0, and both timestamps equal to the creation time |
| Models.NewTrack | backend/models/Track.js:3-10 | a Track is created exactly when its four required strings are non-empty; `playedAt` is null and `createdAt` is the creation time |
| Models.NewPlaylist | backend/models/Playlist.js:3-17 | a Playlist is created exactly when `roomId`, `title` and `createdBy` are non-empty; it starts with no tracks |
| Store.Database.constructor | backend/models/Room.js:15 | the store starts with no rooms, tracks or playlists, and is consistent |
| Store.PlaylistRoomIdNotUnique | backend/models/Playlist.js:4 | unlike `Room.roomId`, `roomId` of a playlist is not unique: a well-formed playlist with the next id keeps any consistent store consistent, whether or not its room already has playlists |
| Store.TracksOf | backend/server.js:121 | the result holds each track of the room as often as the collection does, and nothing else |
| Store.PlaylistsOf | backend/routes/rooms.js:42 | the result holds each playlist of the room as often as the collection does, and nothing else |
| Store.Insert | backend/server.js:121-123 | inserting into a sorted list keeps it sorted and adds exactly the element |
| Store.ConsSorted | backend/server.js:121-123 | putting an element no later than the head in front of a sorted list keeps it sorted |
| Store.KeysAbove | backend/server.js:121-123 | a permutation of a pool plus one element keeps every key above a common lower bound |
| Store.SortBy | backend/server.js:112 | `.sort` returns a permutation of its input, ordered by the key |
| Store.FirstTrackWith | backend/server.js:151-155 | `findOneAndUpdate` selects a track of the room with that url, and no earlier track matches; none is selected only when none matches |
| Store.FirstPlaylistWith | backend/routes/rooms.js:151-154 | `updateOne` selects the first playlist of the room that holds a track with that url; none is selected only when none matches |
| Store.FirstUrl | backend/routes/rooms.js:153 | the positional `tracks.$` is the first embedded track with that url |
| ServerApi.CreateRoom | backend/server.js:89-108 | a missing field answers 400 and writes nothing; a taken `roomId` answers 500 and writes nothing; otherwise exactly the new room is added and returned |
| ServerApi.ListRooms | backend/server.js:111-114 | returns each stored room exactly once and nothing else, newest first |
| ServerApi.GetRoom | backend/server.js:117-125 | 404 exactly when the room is unknown; otherwise the room and a permutation of exactly its tracks, oldest first |
| ServerApi.AddTrack | backend/server.js:128-145 | 400 when a field is missing, with nothing written; otherwise the new track is appended, whether or not the room exists |
| ServerApi.MarkTrackPlayed | backend/server.js:148-161 | the first matching track alone gets `playedAt = now` and is returned; otherwise null, and nothing changes |
| RoomsRouter.CreateRoom | backend/routes/rooms.js:10-32 | 400 without `roomId` or `creatorAddress`; an existing room is returned untouched; a missing title answers 500; otherwise exactly the new room is added |
| RoomsRouter.CreateRoomTwice | backend/routes/rooms.js:17-18 | creating the same room twice is idempotent: the second answer equals the first, and the store holds only the first write |
| RoomsRouter.GetRoom | backend/routes/rooms.js:37-48 | 404 exactly when the room is unknown; otherwise the room and exactly its playlists |
| RoomsRouter.CreatorGate | backend/routes/rooms.js:56-64 | passes exactly the creator (addresses compared ignoring case) with a valid payload; otherwise 400, then 404, then 403, in that order of precedence |
| RoomsRouter.Seek | backend/routes/rooms.js:53-74 | every refusal writes nothing; past the gate only `currentSeek` of that room changes, to `time` as sent |
| RoomsRouter.CreatePlaylist | backend/routes/rooms.js:79-98 | 400 without `title` or `address`, with nothing written; otherwise an empty playlist created by `address` is appended |
| RoomsRouter.ListPlaylists | backend/routes/rooms.js:103-111 | exactly the playlists of the room |
| RoomsRouter.AddPlaylistTrack | backend/routes/rooms.js:116-133 | 400 on missing data, 404 for an unknown playlist; otherwise that playlist alone gains the unplayed track at its end |
| RoomsRouter.MarkPlayedIn | backend/routes/rooms.js:151-154 | only the first matching track of the first matching playlist gets `playedAt`; everything else is unchanged, and everything is unchanged when nothing matches |
| RoomsRouter.MarkPlayed | backend/routes/rooms.js:138-161 | the creator gate with `url` as payload, then the positional update; refusals write nothing |
| Base.Put | app/components/GroupVideoChat.tsx:39 | after `{...fields, [key]: p}` the key reads as `p` and every other key reads as before |
| Base.Trim | extension/popup.js:51 | `trim` never lengthens a string, and leaves one that starts and ends with non-whitespace unchanged |
| Base.TrimEmptyIffAllSpace | app/components/GroupChat.tsx:81 | `!s.trim()` holds exactly when the input is empty or all whitespace |
| Base.TrimIsInfix | extension/popup.js:51 | `trim` cuts only whitespace from the two ends, and leaves no whitespace at either end |
| Base.TrimIdempotent | extension/popup.js:51 | trimming twice is trimming once |
| Base.ToLower | backend/routes/rooms.js:62 | lowering keeps the length and lowers each character on its own |
| Base.SameIgnoringCase | backend/routes/rooms.js:62 | strings equal ignoring case have the same length, and equal strings are equal ignoring case |
| Base.DistinctCount | backend/server.js:111-114 | a sequence without repeats holds each of its elements exactly once |
| Base.SameIgnoringCaseCharwise | backend/routes/rooms.js:62 | addresses match ignoring case exactly when they match letter by letter after lowering |
| Base.Without | backend/server.js:236-240 | `Set.delete` removes exactly that connection and keeps the rest distinct; it shrinks the set by one when the connection is a member and changes nothing otherwise |
| Base.WithoutKeepsOrder | backend/server.js:238 | deleting a member of a set without repeats cuts out its position and keeps every other member in insertion order |
| Relay.BoundRoom | backend/server.js:174-175 | a connection's room is the `roomId` query value, or "default" when it is missing or empty; it is never empty |
| Relay.SyncState | backend/server.js:186-193 | the resync frame has exactly the fields `type`, `roomId`, `url` and `seek`: type "sync-state", the bound room, the stored track and the stored position |
| Relay.StringCast | backend/models/Room.js:10 | Mongoose's cast to the `String` type of `currentTrack`: strings stay as they are, booleans become "true" or "false", an object with a truthy string `_id` gives that `_id`, and arrays and other objects are refused |
| Relay.Resync | backend/server.js:183-195 | a new connection gets at most one frame, a `sync-state` for itself, exactly when the stored room has a current track; it carries the stored url and seek |
| Relay.Persist | backend/server.js:197-222 | only the playback fields of the sender's room change; a `media-change` with a url stores its string cast and resets seek to 0; a numeric `seek` stores `time` unclamped; a throw (null message, store failure, uncastable url) writes nothing and stops the broadcast |
| Relay.PersistKeepsConsistent | backend/server.js:203-221 | persistence keeps the store consistent |
| Relay.PersistAllSnoc | backend/server.js:197-222 | processing one more message extends the history by one persistence step |
| Relay.LatestWriteWins | backend/server.js:202-222 | after any sequence of messages, the room holds the string cast of the last accepted track and the last position written, whoever sent them |
| Relay.LateJoinerSeesLatest | backend/server.js:183-222 | a connection joining after any history receives the latest track and position, or nothing when no track was ever set |
| Relay.Fanout | backend/server.js:225-229 | the broadcast writes at most one frame per member, and fewer than the members when the sender is one of them |
| Relay.FanoutDelivers | backend/server.js:225-229 | a frame goes exactly to each open member other than the sender, carrying the message unchanged |
| Relay.FanoutOncePerMember | backend/server.js:225-229 | each such member gets exactly one copy; the sender gets none |
| Relay.FanoutIgnoresContent | backend/server.js:225-229 | routing never looks inside the message: any two messages reach the same connections in the same order |
| Relay.Broadcast | backend/server.js:225-229 | the `forEach` loop writes exactly the fan-out |
| Relay.RegisterKeepsShape | backend/server.js:177-178 | adding a new connection at the end of its room's set keeps the registry well formed: the connection was not yet a member, and every set stays free of repeats |
| Relay.RoomRelay.constructor | backend/server.js:171 | the registry starts empty |
| Relay.RoomRelay.OnConnection | backend/server.js:173-195 | the connection joins its room's set at the end, creating the set if needed, and receives the resync; when the read fails nothing is sent; the registry stays well formed |
| Relay.RoomRelay.OnMessage | backend/server.js:197-233 | an unparseable message does nothing; otherwise the store changes as `Persist` says, and the fan-out happens exactly when persistence did not throw |
| Relay.RoomRelay.OnClose | backend/server.js:235-241 | the connection leaves its room's set; an emptied room is dropped; the store is untouched |
| EndToEnd.RoomIsolation | backend/server.js:225-229 | every forwarded frame goes to another connection bound to the sender's own room |
| EndToEnd.ChatShownOnceEverywhere | app/components/GroupChat.tsx:80-113 | the relay stores nothing for a chat frame and lets it through; the line then reaches every other open member exactly once and the sender never, and each copy renders as the sender's optimistic line |
| VideoChat.Decide | app/components/GroupVideoChat.tsx:88-137 | frames of another room, or unparseable ones, are ignored; `join-video` from someone else is greeted; each directed kind acts only when `to` is this user; `answer` and `ice-candidate` need a known peer, and a candidate must be truthy |
| VideoChat.OnlyAddresseeActs | app/components/GroupVideoChat.tsx:101-136 | of two different users, at most one acts on a directed frame |
| VideoChat.GreetsJoiner | app/components/GroupVideoChat.tsx:94-99 | another member greets a joiner's `join-video` with `new-peer` addressed to it; the joiner ignores its own announcement |
| VideoChat.GreetingInitiates | app/components/GroupVideoChat.tsx:101-104 | a `new-peer` addressed to the joiner makes it open an initiating connection to the greeter |
| VideoChat.OfferAnswered | app/components/GroupVideoChat.tsx:106-114 | an offer addressed to a member makes it answer the sender with the offered description |
| VideoChat.AnswerAccepted | app/components/GroupVideoChat.tsx:116-120 | an answer addressed to the initiator, from a peer it knows, is accepted with the answered description |
| VideoChat.ForeignRoomIgnored | app/components/GroupVideoChat.tsx:90 | a frame stamped with another room is ignored whatever it holds |
| VideoChat.Stamped | app/components/GroupVideoChat.tsx:39 | an outgoing frame carries this component's `roomId`, overriding any in the message, and keeps every other field |
| VideoChat.PeersAfter | app/components/GroupVideoChat.tsx:79 | only `new-peer` and `offer` add a key to the peer map; every other entry is untouched |
| VideoChat.Frames | app/components/GroupVideoChat.tsx:37-41 | frames are written only while the socket is open, one per message, each stamped |
| VideoChat.VideoClient.constructor | app/components/GroupVideoChat.tsx:29-30 | the peer map starts empty |
| VideoChat.VideoClient.SendMessage | app/components/GroupVideoChat.tsx:37-41 | exactly the stamped message is written when the socket is open, nothing otherwise |
| VideoChat.VideoClient.CreatePeerConnection | app/components/GroupVideoChat.tsx:44-81 | the peer map gains or replaces that entry; an initiator sends its offer to that peer |
| VideoChat.VideoClient.OnIceCandidate | app/components/GroupVideoChat.tsx:59-68 | a gathered candidate is sent to the peer; the end-of-candidates event sends nothing |
| VideoChat.VideoClient.JoinRoom | app/components/GroupVideoChat.tsx:176 | the announcement `join-video` carrying this user is sent |
| VideoChat.VideoClient.Apply | app/components/GroupVideoChat.tsx:92-136 | carrying out a reaction changes the peer map and the frames written exactly as `PeersAfter` and `Replies` say |
| VideoChat.VideoClient.OnMessage | app/components/GroupVideoChat.tsx:88-137 | the peer map and the outgoing frames change exactly as the decided reaction says |
| GroupChat.Received | app/components/GroupChat.tsx:50-68 | a line is rendered exactly for a `chat` frame of this room; it shows the frame's fields, "Anonymous" for a missing nickname and the local clock for a missing timestamp |
| GroupChat.ShownNickname | app/components/GroupChat.tsx:87 | the shown nickname is never empty; it is the saved one when there is one, and "Anonymous" when the saved one is empty |
| GroupChat.ChatFrame | app/components/GroupChat.tsx:83-90 | the chat frame has exactly the six fields `type`, `roomId`, `senderId`, `nickname`, `message` and `timestamp`; it is of type "chat", carries the room, sender, trimmed message and clock, and its nickname is the shown one, which is truthy |
| GroupChat.OwnLine | app/components/GroupChat.tsx:101-110 | the optimistic line carries the sender, the message, the clock and a non-empty nickname, "Anonymous" when none is saved |
| GroupChat.ReceiversSeeOwnLine | app/components/GroupChat.tsx:50-113 | the frame a sender writes renders at every receiver exactly as the sender's optimistic copy (given a non-zero clock) |
| GroupChat.ForeignFramesIgnored | app/components/GroupChat.tsx:53 | a frame of another room or another kind is never rendered |
| GroupChat.ChatPanel.constructor | app/components/GroupChat.tsx:20-22 | the panel starts with the saved nickname, an empty input and no lines |
| GroupChat.ChatPanel.HandleMessage | app/components/GroupChat.tsx:50-68 | appends exactly the rendered line, if any |
| GroupChat.ChatPanel.SendChatMessage | app/components/GroupChat.tsx:80-113 | blank input changes nothing; otherwise the trimmed line is written only when the socket is open, rendered locally exactly once either way, and the input is cleared |
| GroupChat.ToInt32 | app/components/GroupChat.tsx:119 | ToInt32 lands in [-2^31, 2^31), agrees with its input modulo 2^32, and is the identity in range |
| GroupChat.Shl5IsWrappedProduct | app/components/GroupChat.tsx:119 | `acc << 5` equals `acc * 32` wrapped to 32 bits |
| GroupChat.ModShift | app/components/GroupChat.tsx:119 | ToInt32 ignores multiples of 2^32 |
| GroupChat.Hash | app/components/GroupChat.tsx:117-119 | the hash moves by at most 2^31 + 2^21 per character, so the source's double arithmetic stays exact for ids under about four million characters |
| GroupChat.Hue | app/components/GroupChat.tsx:120 | the hue lies in [0, 360) |
| Popup.LastSlash | extension/popup.js:33-34 | the index of the last "/", or -1; when it is an index, that character is "/" |
| Popup.AfterLastSlash | extension/popup.js:33-34 | no character after the last "/" is a "/" |
| Popup.NoLastSlash | extension/popup.js:33-34 | a string without "/" has no last "/" |
| Popup.LastSlashBefore | extension/popup.js:33-34 | in `a + "/" + b` with `b` free of "/", the last "/" is the one added |
| Popup.Split | extension/popup.js:33 | `split("/")` yields at least one piece; the last piece is what follows the last "/", and there is a single piece exactly when there is no "/" |
| Popup.JoinSplit | extension/popup.js:33 | joining the pieces with "/" gives the path back |
| Popup.SplitJoin | extension/popup.js:33 | splitting pieces free of "/" joined with "/" gives the pieces back |
| Popup.SplitPlain | extension/popup.js:33 | a string without "/" splits into itself alone |
| Popup.SplitSegment | extension/popup.js:33-34 | appending "/" and a piece free of "/" adds exactly that piece at the end |
| Popup.ExtractRoomId | extension/popup.js:30-38 | null exactly when the link does not parse |
| Popup.ExtractBySegment | extension/popup.js:33-34 | `pop() \|\| pop()` picks what follows the last "/", or, when that is empty, what lies between the last two "/" (or before the only one), and is `undefined` only for an empty path |
| Popup.ExtractedHasNoSlash | extension/popup.js:33-34 | a string result never contains "/" |
| Popup.ExtractedIsLastSegment | extension/popup.js:34 | a non-empty result is the last segment of the path, or the one before a trailing "/", preceded by "/" or nothing |
| Popup.EndsAfterLastSlash | extension/popup.js:34 | a path is a prefix ending in "/" (or empty) followed by what comes after its last "/" |
| Popup.EndsAfterSlashPair | extension/popup.js:34 | a path ending in "/" is a prefix ending in "/" (or empty), the segment before the final "/", and that "/" |
| Popup.RoomLinkRoundTrip | extension/popup.js:30-38 | a room link yields its room id, with or without a trailing "/" |
| Popup.Resolve | extension/popup.js:54 | the room id is the extracted segment when that is non-empty, otherwise the trimmed input; it is never empty for non-empty input |
| Popup.PopupState.constructor | extension/popup.js:14-17 | the popup starts with the stored room id and no effects |
| Popup.PopupState.OnJoinClick | extension/popup.js:50-59 | blank input only alerts; otherwise the non-empty resolved id is saved, sent as `set-room`, and its page is opened |
| Popup.JoinByPageLink | extension/popup.js:50-59 | pasting the page link of a room whose id is made of ASCII letters and digits, as generated ids are, joins that very room |

## Left out

- The network, the HTTP router and the WebSocket transport are left out. A handler's input is its parsed body or message, and its output is what it writes.
- Concurrency is left out. Each handler is one atomic step. The asynchronous `findOne` of the resync and the `await`s of the message handler are not interleaved with other handlers.
- `new URLSearchParams` decoding of the query string is left out. `BoundRoom` receives the decoded `roomId` value.
- The URL parser behind `new URL(link)` is left out. `Popup.ExtractRoomId` receives the `pathname` it produces, including its percent-encoding. The page link in `Popup.JoinByPageLink` is paired with its path by hand.
- The popup's create-room and send-current-tab buttons are left out, as is the room display. They rely on `Math.random` ids and `encodeURIComponent`.
- The background worker (extension/background.js) is not part of this model. It connects without `?roomId`, so the relay binds it to "default".
- WebRTC internals are left out: streams, tracks, the STUN configuration, the audio level meter, and `RTCSessionDescription` refusing a malformed description. The offer and answer descriptions are parameters.
- `VideoChat.VideoClient.CreatePeerConnection`: the offer is sent in the same step that creates the connection. In the source it is sent after `createOffer` resolves, which may be later.
- `VideoChat.Decide`: the handler is modelled as seeing the current peer map. The source's `onmessage` closure captures the `peers` state of the last render, so during a re-render it may see an older map.
- JavaScript object keys: the peer map is keyed by the JSON value of `from`. The source converts keys to strings, so `"1"` and `1` would share an entry there.
- `Base.ToLower`: lowers ASCII letters only. `toLowerCase` also lowers other scripts, but wallet addresses are hexadecimal.
- `GroupChat.Hash`: characters are Unicode scalar values. The source hashes UTF-16 code units, so a character outside the Basic Multilingual Plane contributes two surrogates there.
- `GroupChat.Hue`: returns the hue number. Formatting the `hsl(...)` string is not modelled.
- Numbers are exact reals. Doubles beyond 2^53 and non-finite values are not modelled.
- Request-body fields are strings or absent, so Mongoose's casting of other values in the HTTP handlers is left out. A non-string truthy `address` would make `toLowerCase` throw and answer 500, and that path is not modelled.
- `Relay.StringCast`: a number is kept as a number, where Mongoose stores its decimal string form. Decimal formatting of numbers is not modelled. Strings, booleans, `null`, arrays and objects are cast as Mongoose casts them.
- The `_id` format is not modelled. A playlist id is an integer position. A malformed id, which the source answers with a cast error and 500, is modelled as an unknown id (404).
- Database outages in the HTTP handlers are not modelled. Most handlers answer 500 from their `catch` block. `GET /api/rooms` and `GET /api/rooms/:roomId` (backend/server.js:111-125) have no `catch`, so a failure there is an unhandled rejection and no reply.
- In the relay, store failures arrive as `storeFails`, both in the message handler and in the resync read. The resync read (backend/server.js:183-195) has no `catch`: a failure sends nothing, which is modelled, and raises an unhandled rejection that may end the Node process, which is not modelled.
- `Popup.JoinByPageLink`: ids with characters other than ASCII letters and digits are not covered, because the browser may percent-encode them in the page's path.
- `ServerApi.MarkTrackPlayed`: a request without `url` is modelled as matching no track. Every stored track has a url.
- Logging and UI rendering are left out.
