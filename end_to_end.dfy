/** Properties of the relay and the clients together: the relay keeps a
    room's traffic within the room, a chat line reaches every other open
    member once and is rendered there as its sender shows it, and the
    sender never gets its own line back. */
module EndToEnd {
  import opened Base
  import opened Models
  import opened Relay
  import opened GroupChat

  /** Every frame the relay forwards for `c` goes to another connection
      bound to `c`'s own room. */
  lemma RoomIsolation(active: map<string, seq<ConnId>>, roomOf: map<ConnId, string>, c: ConnId,
                      open: set<ConnId>, data: Json)
    requires Registered(active, roomOf) && c in roomOf
    ensures forall d :: d in Fanout(active[roomOf[c]], c, open, data) ==>
      d.to in roomOf && roomOf[d.to] == roomOf[c] && d.to != c && d.msg == data
  {
    forall d | d in Fanout(active[roomOf[c]], c, open, data)
      ensures d.to in roomOf && roomOf[d.to] == roomOf[c] && d.to != c && d.msg == data
    {
      FanoutDelivers(active[roomOf[c]], c, open, data, d);
    }
  }

  /** A chat line sent on a connection of the room passes the relay's
      persistence step untouched (it is neither a `media-change` nor a
      `seek`, so nothing is written and nothing can throw) and is
      broadcast: the sender gets no copy (so it sees its line once, from
      its own optimistic render), every other open member gets exactly
      one, and each copy renders as the sender's own line does. */
  lemma ChatShownOnceEverywhere(members: seq<ConnId>, c: ConnId, open: set<ConnId>, x: ConnId,
                                rooms: map<string, Room>, at: Time, storeFails: bool,
                                roomId: string, userId: string, nickname: string, message: string,
                                sentAt: int, id: string, now: int)
    requires Distinct(members) && sentAt != 0
    ensures Persist(roomId, rooms, ChatFrame(roomId, userId, nickname, message, sentAt), at, storeFails)
            == Handled(rooms, true)
    ensures var out := Fanout(members, c, open, ChatFrame(roomId, userId, nickname, message, sentAt));
      && CountTo(out, c) == 0
      && CountTo(out, x) == (if x in members && x != c && x in open then 1 else 0)
      && forall d :: d in out ==> Received(roomId, Some(d.msg), id, now) == Some(OwnLine(userId, nickname, message, id, sentAt))
  {
    var frame := ChatFrame(roomId, userId, nickname, message, sentAt);
    var out := Fanout(members, c, open, frame);
    FanoutOncePerMember(members, c, open, frame, c);
    FanoutOncePerMember(members, c, open, frame, x);
    forall d | d in out
      ensures Received(roomId, Some(d.msg), id, now) == Some(OwnLine(userId, nickname, message, id, sentAt))
    {
      FanoutDelivers(members, c, open, frame, d);
      ReceiversSeeOwnLine(roomId, userId, nickname, message, sentAt, id, now);
    }
  }
}
