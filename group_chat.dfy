/** The group chat panel: it renders the `chat` frames of its own room,
    sends its own lines with an optimistic local copy, and colours each
    sender by a hash of the sender's id. */
module GroupChat {
  import opened Base

  /** One rendered line. `id` stands for the `crypto.randomUUID()` value;
      the other fields are copied from the frame as JSON gave them. */
  datatype ChatMessage = ChatMessage(id: string, senderId: Prop, nickname: Json, message: Prop, timestamp: Json)

  /** `a || b` where `b` is a JSON value. */
  function Or(a: Prop, b: Json): (v: Json)
    ensures Truthy(a) ==> Defined(v) == a
    ensures !Truthy(a) ==> v == b
  {
    if Truthy(a) then a.value else b
  }

  /** `handleMessage`: a frame is rendered iff it parsed, is a `chat`
      frame, and carries this room; a missing nickname shows "Anonymous",
      a missing timestamp the receiver's clock `now`. */
  function Received(roomId: string, parsed: Option<Json>, id: string, now: int): (m: Option<ChatMessage>)
    ensures m.Some? <==> (parsed.Some? && IsStr(Field(parsed.value, "type"), "chat")
                          && IsStr(Field(parsed.value, "roomId"), roomId))
    ensures m.Some? ==> (m.value.id == id
      && m.value.senderId == Field(parsed.value, "senderId")
      && m.value.message == Field(parsed.value, "message")
      && m.value.nickname == Or(Field(parsed.value, "nickname"), JStr("Anonymous"))
      && m.value.timestamp == Or(Field(parsed.value, "timestamp"), JNum(now as real)))
  {
    if parsed.Some? && IsStr(Field(parsed.value, "type"), "chat") && IsStr(Field(parsed.value, "roomId"), roomId) then
      var data := parsed.value;
      Some(ChatMessage(id, Field(data, "senderId"), Or(Field(data, "nickname"), JStr("Anonymous")),
                       Field(data, "message"), Or(Field(data, "timestamp"), JNum(now as real))))
    else None
  }

  /** The shown nickname: the saved one, or "Anonymous" when it is empty. */
  function ShownNickname(nickname: string): (n: string)
    ensures n != ""
    ensures nickname != "" ==> n == nickname
    ensures nickname == "" ==> n == "Anonymous"
  {
    if nickname != "" then nickname else "Anonymous"
  }

  /** The frame `sendChatMessage` writes for the trimmed input `message`:
      a `chat` frame of this room from this user, with the shown nickname
      and the sender's clock, and no other member. */
  function ChatFrame(roomId: string, userId: string, nickname: string, message: string, now: int): (f: Json)
    ensures f.JObj? && f.fields.Keys == {"type", "roomId", "senderId", "nickname", "message", "timestamp"}
    ensures Field(f, "type") == Defined(JStr("chat")) && Field(f, "roomId") == Defined(JStr(roomId))
    ensures Field(f, "senderId") == Defined(JStr(userId)) && Field(f, "message") == Defined(JStr(message))
    ensures Field(f, "nickname") == Defined(JStr(ShownNickname(nickname))) && Truthy(Field(f, "nickname"))
    ensures Field(f, "timestamp") == Defined(JNum(now as real))
  {
    JObj(map["type" := JStr("chat"), "roomId" := JStr(roomId), "senderId" := JStr(userId),
             "nickname" := JStr(ShownNickname(nickname)), "message" := JStr(message),
             "timestamp" := JNum(now as real)])
  }

  /** The optimistic copy the sender renders of its own line: its own id,
      a nickname that is never empty, the trimmed text and its own clock. */
  function OwnLine(userId: string, nickname: string, message: string, id: string, now: int): (m: ChatMessage)
    ensures m.id == id && m.senderId == Defined(JStr(userId)) && m.message == Defined(JStr(message))
    ensures m.nickname.JStr? && m.nickname.s != ""
    ensures nickname == "" ==> m.nickname == JStr("Anonymous")
    ensures m.timestamp == JNum(now as real)
  {
    ChatMessage(id, Defined(JStr(userId)), JStr(ShownNickname(nickname)), Defined(JStr(message)),
                JNum(now as real))
  }

  /** Every member of the room renders a sent line exactly as the sender's
      optimistic copy shows it (up to the line's own id), provided the
      clock did not read 0, the one timestamp the receiver would replace. */
  lemma ReceiversSeeOwnLine(roomId: string, userId: string, nickname: string, message: string,
                            sentAt: int, id: string, now: int)
    requires sentAt != 0
    ensures Received(roomId, Some(ChatFrame(roomId, userId, nickname, message, sentAt)), id, now)
            == Some(OwnLine(userId, nickname, message, id, sentAt))
  {
    var f := ChatFrame(roomId, userId, nickname, message, sentAt);
    assert Or(Field(f, "nickname"), JStr("Anonymous")) == JStr(ShownNickname(nickname));
    assert Or(Field(f, "timestamp"), JNum(now as real)) == JNum(sentAt as real);
  }

  /** A frame of another room, or of another kind, is never rendered. */
  lemma ForeignFramesIgnored(roomId: string, parsed: Option<Json>, id: string, now: int)
    requires parsed.Some? && !(IsStr(Field(parsed.value, "roomId"), roomId) && IsStr(Field(parsed.value, "type"), "chat"))
    ensures Received(roomId, parsed, id, now).None?
  {
  }

  // ---------------------------------------------------------------------
  // getUserColor

  const TwoTo31: int := 0x8000_0000
  const TwoTo32: int := 0x1_0000_0000

  /** ECMAScript ToInt32 on an integral number: wrap into [-2^31, 2^31). */
  function ToInt32(x: int): (r: int)
    ensures -TwoTo31 <= r < TwoTo31
    ensures (r - x) % TwoTo32 == 0
    ensures -TwoTo31 <= x < TwoTo31 ==> r == x
  {
    (x + TwoTo31) % TwoTo32 - TwoTo31
  }

  /** `acc << 5`: both operands pass through ToInt32. */
  function Shl5(acc: int): int {
    ToInt32(ToInt32(acc) * 32)
  }

  /** Wrapping first does not change the shifted result: `acc << 5` is
      `acc * 32` wrapped to 32 bits. */
  lemma Shl5IsWrappedProduct(acc: int)
    ensures Shl5(acc) == ToInt32(acc * 32)
  {
    var w := ToInt32(acc);
    var q := (w - acc) / TwoTo32;
    assert w - acc == q * TwoTo32;
    assert w * 32 == acc * 32 + (q * 32) * TwoTo32;
    ModShift(acc * 32, q * 32);
  }

  lemma ModShift(x: int, k: int)
    ensures ToInt32(x + k * TwoTo32) == ToInt32(x)
  {
    assert (x + k * TwoTo32 + TwoTo31) % TwoTo32 == (x + TwoTo31) % TwoTo32;
  }

  /** The `reduce` of `getUserColor` over the characters of `s`, from the
      left, starting at 0: `c + ((acc << 5) - acc)`. Each character moves
      the hash by at most 2^31 + 2^21, so the double arithmetic of the
      source is exact (below 2^53) for any id shorter than about four
      million characters. */
  function Hash(s: string): (h: int)
    ensures -|s| * (TwoTo31 + 0x20_0000) <= h <= |s| * (TwoTo31 + 0x20_0000)
  {
    if s == [] then 0
    else
      var acc := Hash(s[..|s| - 1]);
      assert -TwoTo31 <= Shl5(acc) < TwoTo31;
      assert 0 <= s[|s| - 1] as int < 0x20_0000;
      s[|s| - 1] as int + (Shl5(acc) - acc)
  }

  /** `Math.abs(hash) % 360`: the hue of the sender's colour, in [0, 360). */
  function Hue(senderId: string): (h: int)
    ensures 0 <= h < 360
  {
    var hash := Hash(senderId);
    (if hash < 0 then -hash else hash) % 360
  }

  // ---------------------------------------------------------------------
  // The panel

  /** One mounted chat panel: its room and user, the `nickname` and
      `chatInput` state, the rendered lines, and the frames it wrote. */
  class ChatPanel {
    const roomId: string
    const userId: string
    var nickname: string
    var input: string
    var messages: seq<ChatMessage>
    var sent: seq<Json>

    constructor (roomId: string, userId: string, saved: string)
      ensures this.roomId == roomId && this.userId == userId
      ensures nickname == saved && input == "" && messages == [] && sent == []
    {
      this.roomId, this.userId := roomId, userId;
      nickname, input, messages, sent := saved, "", [], [];
    }

    /** `handleMessage`: append the line `Received` gives, if any. */
    method HandleMessage(parsed: Option<Json>, id: string, now: int)
      modifies this`messages
      ensures var m := Received(roomId, parsed, id, now);
        messages == old(messages) + (if m.Some? then [m.value] else [])
    {
      var m := Received(roomId, parsed, id, now);
      if m.Some? {
        messages := messages + [m.value];
      }
    }

    /** `sendChatMessage`: a blank input changes nothing; otherwise the
        frame is written when the socket is open, the own line is rendered
        once whether or not it was, and the input is cleared. */
    method SendChatMessage(socketOpen: bool, id: string, now: int)
      modifies this`messages, this`sent, this`input
      ensures AllSpace(old(input)) ==> messages == old(messages) && sent == old(sent) && input == old(input)
      ensures !AllSpace(old(input)) ==>
        && messages == old(messages) + [OwnLine(userId, nickname, Trim(old(input)), id, now)]
        && sent == old(sent) + (if socketOpen then [ChatFrame(roomId, userId, nickname, Trim(old(input)), now)] else [])
        && input == ""
    {
      TrimEmptyIffAllSpace(input);
      if Trim(input) == "" {
        return;
      }
      var message := Trim(input);
      if socketOpen {
        sent := sent + [ChatFrame(roomId, userId, nickname, message, now)];
      }
      messages := messages + [OwnLine(userId, nickname, message, id, now)];
      input := "";
    }
  }
}
