/** The signalling side of the group video call. Every frame goes through the
    relay; a client acts only on frames stamped with its own room, and on
    the directed kinds (`new-peer`, `offer`, `answer`, `ice-candidate`) only
    when it is the addressee. The handshake runs: a joiner announces
    `join-video`; each other member answers `new-peer` to it; the joiner
    opens an initiating connection to each and sends an `offer`; the member
    accepts it and returns an `answer`; candidates follow. The media
    streams, the audio level meter and the WebRTC engine itself are not
    modelled: a connection is the record `Peer`. */
module VideoChat {
  import opened Base

  /** What the component keeps for one remote peer: whether this side
      started the handshake, the remote description accepted so far, and
      the ICE candidates added to it. */
  datatype Peer = Peer(initiator: bool, remote: Prop, candidates: seq<Json>)

  /** What one incoming frame makes the component do. */
  datatype Reaction =
    | Ignore
    | Greet(joiner: Prop)                   // someone else joined: send it `new-peer`
    | Initiate(peer: Prop)                  // `new-peer` for us: open an initiating connection
    | Answer(peer: Prop, sdp: Prop)         // `offer` for us: open a connection, accept, answer
    | Accept(peer: Prop, sdp: Prop)         // `answer` for us from a known peer
    | AddCandidate(peer: Prop, candidate: Json)  // `ice-candidate` for us from a known peer

  /** The frame parsed, is not `null`, and carries `roomId` equal to ours. */
  predicate InRoom(parsed: Option<Json>, roomId: string) {
    parsed.Some? && IsStr(Field(parsed.value, "roomId"), roomId)
  }

  predicate OfKind(data: Json, kind: string) {
    IsStr(Field(data, "type"), kind)
  }

  predicate AddressedTo(data: Json, userId: string) {
    IsStr(Field(data, "to"), userId)
  }

  /** The four kinds that name a single addressee in `to`. */
  predicate Directed(data: Json) {
    OfKind(data, "new-peer") || OfKind(data, "offer") || OfKind(data, "answer") || OfKind(data, "ice-candidate")
  }

  /** The `onmessage` switch. `parsed` is `None` when `JSON.parse` threw;
      `peers` is the key set of the peer map the handler sees. */
  function Decide(roomId: string, userId: string, parsed: Option<Json>, peers: set<Prop>): (r: Reaction)
    ensures r != Ignore ==> InRoom(parsed, roomId)
    ensures r.Greet? <==> (InRoom(parsed, roomId) && OfKind(parsed.value, "join-video")
                           && Field(parsed.value, "userId") != Defined(JStr(userId)))
    ensures r.Greet? ==> r.joiner == Field(parsed.value, "userId")
    ensures r.Initiate? <==> (InRoom(parsed, roomId) && OfKind(parsed.value, "new-peer")
                              && AddressedTo(parsed.value, userId))
    ensures r.Answer? <==> (InRoom(parsed, roomId) && OfKind(parsed.value, "offer")
                            && AddressedTo(parsed.value, userId))
    ensures r.Accept? <==> (InRoom(parsed, roomId) && OfKind(parsed.value, "answer")
                            && AddressedTo(parsed.value, userId) && Field(parsed.value, "from") in peers)
    ensures r.AddCandidate? <==> (InRoom(parsed, roomId) && OfKind(parsed.value, "ice-candidate")
                                  && AddressedTo(parsed.value, userId) && Field(parsed.value, "from") in peers
                                  && Truthy(Field(parsed.value, "candidate")))
    ensures (r.Initiate? || r.Answer? || r.Accept? || r.AddCandidate?) ==> r.peer == Field(parsed.value, "from")
    ensures (r.Answer? || r.Accept?) ==> r.sdp == Field(parsed.value, "sdp")
    ensures r.AddCandidate? ==> Defined(r.candidate) == Field(parsed.value, "candidate")
  {
    if !InRoom(parsed, roomId) then Ignore
    else
      var data := parsed.value;
      var from := Field(data, "from");
      if OfKind(data, "join-video") then
        if Field(data, "userId") != Defined(JStr(userId)) then Greet(Field(data, "userId")) else Ignore
      else if !AddressedTo(data, userId) then Ignore
      else if OfKind(data, "new-peer") then Initiate(from)
      else if OfKind(data, "offer") then Answer(from, Field(data, "sdp"))
      else if OfKind(data, "answer") then
        if from in peers then Accept(from, Field(data, "sdp")) else Ignore
      else if OfKind(data, "ice-candidate") then
        if from in peers && Truthy(Field(data, "candidate")) then AddCandidate(from, Field(data, "candidate").value)
        else Ignore
      else Ignore
  }

  /** A directed frame is acted on by its addressee alone: of two different
      users, at least one ignores it, whatever peers each one knows. */
  lemma OnlyAddresseeActs(roomId: string, u: string, v: string, data: Json, peersU: set<Prop>, peersV: set<Prop>)
    requires u != v && Directed(data)
    ensures Decide(roomId, u, Some(data), peersU) == Ignore || Decide(roomId, v, Some(data), peersV) == Ignore
  {
    if Decide(roomId, u, Some(data), peersU) != Ignore {
      assert AddressedTo(data, u);
      assert !AddressedTo(data, v);
    }
  }

  /** `{...msg, roomId}`: the message with this component's room stamped
      over whatever `roomId` it carried; every other member is kept. */
  function Stamped(msg: map<string, Json>, roomId: string): (m: Json)
    ensures Field(m, "roomId") == Defined(JStr(roomId))
    ensures forall k :: k != "roomId" ==> Field(m, k) == Field(JObj(msg), k)
  {
    JObj(msg["roomId" := JStr(roomId)])
  }

  function JoinVideoMsg(userId: string): map<string, Json> {
    map["type" := JStr("join-video"), "userId" := JStr(userId)]
  }

  function NewPeerMsg(to: Prop, userId: string): map<string, Json> {
    Put(map["type" := JStr("new-peer"), "from" := JStr(userId)], "to", to)
  }

  function OfferMsg(to: Prop, userId: string, offer: Json): map<string, Json> {
    Put(map["type" := JStr("offer"), "from" := JStr(userId), "sdp" := offer], "to", to)
  }

  function AnswerMsg(to: Prop, userId: string, answer: Json): map<string, Json> {
    Put(map["type" := JStr("answer"), "from" := JStr(userId), "sdp" := answer], "to", to)
  }

  function CandidateMsg(to: Prop, userId: string, candidate: Json): map<string, Json> {
    Put(map["type" := JStr("ice-candidate"), "from" := JStr(userId), "candidate" := candidate], "to", to)
  }

  /** A member of room `r` greets the announcement of another user `a`;
      `a` itself ignores its own announcement. */
  lemma GreetsJoiner(r: string, a: string, b: string, peersA: set<Prop>, peersB: set<Prop>)
    requires a != b
    ensures Decide(r, b, Some(Stamped(JoinVideoMsg(a), r)), peersB) == Greet(Defined(JStr(a)))
    ensures Decide(r, a, Some(Stamped(JoinVideoMsg(a), r)), peersA) == Ignore
  {
    var join := Stamped(JoinVideoMsg(a), r);
    assert Field(join, "type") == Defined(JStr("join-video"));
    assert Field(join, "userId") == Defined(JStr(a));
  }

  /** The greeting `b` sends to `a` makes `a` open an initiating connection to `b`. */
  lemma GreetingInitiates(r: string, a: string, b: string, peersA: set<Prop>)
    ensures Decide(r, a, Some(Stamped(NewPeerMsg(Defined(JStr(a)), b), r)), peersA) == Initiate(Defined(JStr(b)))
  {
    var greet := Stamped(NewPeerMsg(Defined(JStr(a)), b), r);
    assert Field(greet, "type") == Defined(JStr("new-peer"));
    assert Field(greet, "to") == Defined(JStr(a));
    assert Field(greet, "from") == Defined(JStr(b));
  }

  /** The offer `a` sends to `b` makes `b` answer `a` with that offer as remote description. */
  lemma OfferAnswered(r: string, a: string, b: string, offer: Json, peersB: set<Prop>)
    ensures Decide(r, b, Some(Stamped(OfferMsg(Defined(JStr(b)), a, offer), r)), peersB)
            == Answer(Defined(JStr(a)), Defined(offer))
  {
    var off := Stamped(OfferMsg(Defined(JStr(b)), a, offer), r);
    assert Field(off, "type") == Defined(JStr("offer"));
    assert Field(off, "to") == Defined(JStr(b));
    assert Field(off, "from") == Defined(JStr(a));
    assert Field(off, "sdp") == Defined(offer);
  }

  /** The answer `b` returns is accepted by `a`, which knows `b` as a peer. */
  lemma AnswerAccepted(r: string, a: string, b: string, answer: Json, peersA: set<Prop>)
    requires Defined(JStr(b)) in peersA
    ensures Decide(r, a, Some(Stamped(AnswerMsg(Defined(JStr(a)), b, answer), r)), peersA)
            == Accept(Defined(JStr(b)), Defined(answer))
  {
    var ans := Stamped(AnswerMsg(Defined(JStr(a)), b, answer), r);
    assert Field(ans, "type") == Defined(JStr("answer"));
    assert Field(ans, "to") == Defined(JStr(a));
    assert Field(ans, "from") == Defined(JStr(b));
    assert Field(ans, "sdp") == Defined(answer);
  }

  /** A client of another room ignores every frame stamped with room `r`. */
  lemma ForeignRoomIgnored(r: string, other: string, m: map<string, Json>, u: string, peers: set<Prop>)
    requires other != r
    ensures Decide(other, u, Some(Stamped(m, r)), peers) == Ignore
  {
  }

  /** The peer map after a reaction: a new connection replaces whatever the
      key held; an answer or a candidate updates the known connection. */
  function PeersAfter(peers: map<Prop, Peer>, r: Reaction): (after: map<Prop, Peer>)
    ensures after.Keys == peers.Keys + (if r.Initiate? || r.Answer? then {r.peer} else {})
    ensures forall p :: p in peers && (r.Ignore? || r.Greet? || p != r.peer) ==> after[p] == peers[p]
  {
    match r
    case Initiate(p) => peers[p := Peer(true, Undefined, [])]
    case Answer(p, sdp) => peers[p := Peer(false, sdp, [])]
    case Accept(p, sdp) => if p in peers then peers[p := peers[p].(remote := sdp)] else peers
    case AddCandidate(p, c) => if p in peers then peers[p := peers[p].(candidates := peers[p].candidates + [c])] else peers
    case _ => peers
  }

  /** The messages a reaction sends, before `roomId` is stamped on them.
      `offer` and `answer` stand for the descriptions the WebRTC engine
      creates. */
  function Replies(r: Reaction, userId: string, offer: Json, answer: Json): seq<map<string, Json>> {
    match r
    case Greet(j) => [NewPeerMsg(j, userId)]
    case Initiate(p) => [OfferMsg(p, userId, offer)]
    case Answer(p, _) => [AnswerMsg(p, userId, answer)]
    case _ => []
  }

  /** The frames written for `msgs` while the socket is open: each stamped
      with the room, in order; nothing while it is closed. */
  function Frames(msgs: seq<map<string, Json>>, roomId: string, socketOpen: bool): (fs: seq<Json>)
    ensures |fs| == if socketOpen then |msgs| else 0
    ensures forall i :: 0 <= i < |fs| ==> fs[i] == Stamped(msgs[i], roomId)
  {
    if !socketOpen || msgs == [] then []
    else [Stamped(msgs[0], roomId)] + Frames(msgs[1..], roomId, socketOpen)
  }

  /** One mounted video-call component: its room and user, the peer map
      (`peers` state), and the frames it has written to the shared socket. */
  class VideoClient {
    const roomId: string
    const userId: string
    var peers: map<Prop, Peer>
    var sent: seq<Json>

    constructor (roomId: string, userId: string)
      ensures this.roomId == roomId && this.userId == userId
      ensures peers == map[] && sent == []
    {
      this.roomId, this.userId := roomId, userId;
      peers, sent := map[], [];
    }

    /** `sendMessage`: the message, stamped with this room, is written only
        when the socket exists and is open. */
    method SendMessage(msg: map<string, Json>, socketOpen: bool)
      modifies this`sent
      ensures sent == old(sent) + Frames([msg], roomId, socketOpen)
    {
      if socketOpen {
        sent := sent + [Stamped(msg, roomId)];
      }
    }

    /** `createPeerConnection`: the new connection replaces any entry under
        `peerId`; an initiating one then sends its offer to that peer. */
    method CreatePeerConnection(peerId: Prop, initiator: bool, offer: Json, socketOpen: bool)
      modifies this`peers, this`sent
      ensures peers == old(peers)[peerId := Peer(initiator, Undefined, [])]
      ensures sent == old(sent) + Frames(if initiator then [OfferMsg(peerId, userId, offer)] else [],
                                         roomId, socketOpen)
    {
      if initiator {
        SendMessage(OfferMsg(peerId, userId, offer), socketOpen);
      }
      peers := peers[peerId := Peer(initiator, Undefined, [])];
    }

    /** The `onicecandidate` handler of the connection to `peerId`: a
        gathered candidate is sent to that peer; the end-of-candidates
        event (no candidate) sends nothing. */
    method OnIceCandidate(peerId: Prop, candidate: Prop, socketOpen: bool)
      modifies this`sent
      ensures sent == old(sent) + Frames(if Truthy(candidate) then [CandidateMsg(peerId, userId, candidate.value)] else [],
                                         roomId, socketOpen)
    {
      if Truthy(candidate) {
        SendMessage(CandidateMsg(peerId, userId, candidate.value), socketOpen);
      }
    }

    /** `joinRoom` once the camera and microphone were granted: announce
        this user to the room. */
    method JoinRoom(socketOpen: bool)
      modifies this`sent
      ensures sent == old(sent) + Frames([JoinVideoMsg(userId)], roomId, socketOpen)
    {
      SendMessage(JoinVideoMsg(userId), socketOpen);
    }

    /** `ws.onmessage`: the reaction `Decide` picks for the frame, applied
        to the peer map, with its replies written to the socket. */
    method OnMessage(parsed: Option<Json>, socketOpen: bool, offer: Json, answer: Json)
      modifies this`peers, this`sent
      ensures var r := Decide(roomId, userId, parsed, old(peers).Keys);
        && peers == PeersAfter(old(peers), r)
        && sent == old(sent) + Frames(Replies(r, userId, offer, answer), roomId, socketOpen)
    {
      var r := Decide(roomId, userId, parsed, peers.Keys);
      Apply(r, socketOpen, offer, answer);
    }

    /** The branch of the switch for reaction `r`. */
    method Apply(r: Reaction, socketOpen: bool, offer: Json, answer: Json)
      modifies this`peers, this`sent
      ensures peers == PeersAfter(old(peers), r)
      ensures sent == old(sent) + Frames(Replies(r, userId, offer, answer), roomId, socketOpen)
    {
      match r
      case Ignore =>
      case Greet(j) =>
        SendMessage(NewPeerMsg(j, userId), socketOpen);
      case Initiate(p) =>
        CreatePeerConnection(p, true, offer, socketOpen);
      case Answer(p, sdp) =>
        CreatePeerConnection(p, false, offer, socketOpen);
        peers := peers[p := peers[p].(remote := sdp)];
        SendMessage(AnswerMsg(p, userId, answer), socketOpen);
      case Accept(p, sdp) =>
        if p in peers {
          peers := peers[p := peers[p].(remote := sdp)];
        }
      case AddCandidate(p, c) =>
        if p in peers {
          peers := peers[p := peers[p].(candidates := peers[p].candidates + [c])];
        }
    }
  }
}
