/** The browser-extension popup: turning a pasted room link or id into a
    room id, and joining that room (remember it, tell the background
    worker, open the room's page). The URL parser is outside the model: the
    handlers receive the `pathname` that `new URL(link)` yields, or `None`
    when the constructor throws. */
module Popup {
  import opened Base

  const JamBase: string := "https://freejam4u.com/jam"

  // ---------------------------------------------------------------------
  // `split("/")` and its inverse

  /** `s` holds no "/". */
  predicate NoSlash(s: string) {
    forall i :: 0 <= i < |s| ==> s[i] != '/'
  }

  /** The index of the last "/" of `s`, or -1 when there is none. */
  function LastSlash(s: string): (k: int)
    ensures -1 <= k < |s|
    ensures k >= 0 ==> s[k] == '/'
  {
    if s == [] then -1
    else if s[|s| - 1] == '/' then |s| - 1
    else LastSlash(s[..|s| - 1])
  }

  /** Nothing after the last "/" is a "/". */
  lemma {:induction false} AfterLastSlash(s: string)
    ensures forall i :: LastSlash(s) < i < |s| ==> s[i] != '/'
  {
    if s != [] && s[|s| - 1] != '/' {
      var t := s[..|s| - 1];
      AfterLastSlash(t);
    }
  }

  /** Without "/" there is no last one. */
  lemma {:induction false} NoLastSlash(b: string)
    requires NoSlash(b)
    ensures LastSlash(b) == -1
  {
    if b != [] {
      var b' := b[..|b| - 1];
      assert forall i :: 0 <= i < |b'| ==> b'[i] == b[i];
      NoLastSlash(b');
    }
  }

  /** The last "/" of `a + "/" + b`, when `b` has none, is the one added. */
  lemma {:induction false} LastSlashBefore(a: string, b: string)
    requires NoSlash(b)
    ensures LastSlash(a + "/" + b) == |a|
  {
    var s := a + "/" + b;
    if b == [] {
      assert s[|s| - 1] == '/';
    } else {
      var b' := b[..|b| - 1];
      assert forall i :: 0 <= i < |b'| ==> b'[i] == b[i];
      LastSlashBefore(a, b');
      assert s[..|s| - 1] == a + "/" + b';
      assert s[|s| - 1] == b[|b| - 1];
    }
  }

  /** `s.split("/")`: the pieces between separators, left to right; the
      last piece is what follows the last "/". */
  function Split(s: string): (ps: seq<string>)
    ensures |ps| >= 1
    ensures ps[|ps| - 1] == s[LastSlash(s) + 1..]
    ensures |ps| == 1 <==> LastSlash(s) < 0
    decreases |s|
  {
    var k := LastSlash(s);
    if k < 0 then [s] else Split(s[..k]) + [s[k + 1..]]
  }

  /** `ps.join("/")`. */
  function Join(ps: seq<string>): string
    requires |ps| >= 1
  {
    if |ps| == 1 then ps[0] else Join(ps[..|ps| - 1]) + "/" + ps[|ps| - 1]
  }

  /** Splitting loses nothing: joining the pieces gives the string back. */
  lemma {:induction false} JoinSplit(s: string)
    ensures Join(Split(s)) == s
    decreases |s|
  {
    var k := LastSlash(s);
    if k >= 0 {
      var init := Split(s[..k]);
      JoinSplit(s[..k]);
      var ps := init + [s[k + 1..]];
      assert ps[..|ps| - 1] == init;
      assert s == s[..k] + "/" + s[k + 1..];
    }
  }

  /** Joining pieces free of "/" and splitting again gives the pieces back. */
  lemma {:induction false} SplitJoin(ps: seq<string>)
    requires |ps| >= 1 && forall i :: 0 <= i < |ps| ==> NoSlash(ps[i])
    ensures Split(Join(ps)) == ps
  {
    if |ps| == 1 {
      SplitPlain(ps[0]);
    } else {
      var init, last := ps[..|ps| - 1], ps[|ps| - 1];
      SplitJoin(init);
      assert Join(ps) == Join(init) + "/" + last;
      SplitSegment(Join(init), last);
      assert init + [last] == ps;
    }
  }

  /** A string without "/" is a single piece. */
  lemma SplitPlain(b: string)
    requires NoSlash(b)
    ensures Split(b) == [b]
  {
    NoLastSlash(b);
    assert b[0..] == b;
  }

  /** Appending a separator and a piece without "/" appends that piece. */
  lemma SplitSegment(a: string, b: string)
    requires NoSlash(b)
    ensures Split(a + "/" + b) == Split(a) + [b]
  {
    var s := a + "/" + b;
    LastSlashBefore(a, b);
    assert s[..|a|] == a && s[|a| + 1..] == b;
  }

  // ---------------------------------------------------------------------
  // extractRoomId

  /** What `extractRoomId` returns: `null` when the link does not parse,
      `undefined` (the second `pop` of a one-piece path), or a string. */
  datatype Extracted = Failed | Missing | Piece(s: string)

  predicate TruthyExtracted(e: Extracted) {
    e.Piece? && e.s != ""
  }

  /** `parts.pop() || parts.pop()` over the pieces of the path. */
  function LastPiece(ps: seq<string>): Extracted
    requires |ps| >= 1
  {
    if ps[|ps| - 1] != "" then Piece(ps[|ps| - 1])
    else if |ps| >= 2 then Piece(ps[|ps| - 2])
    else Missing
  }

  /** `extractRoomId(link)` given the pathname of `new URL(link)`: the last
      path segment, or the one before a trailing "/"; `null` when the link
      does not parse. */
  function ExtractRoomId(pathname: Option<string>): (r: Extracted)
    ensures r.Failed? <==> pathname.None?
  {
    if pathname.None? then Failed else LastPiece(Split(pathname.value))
  }

  /** The segment `extractRoomId` picks, located by index: what follows
      the last "/", or, when nothing does, what lies between the two last
      ones. */
  function SegmentAt(s: string): Extracted {
    var k := LastSlash(s);
    if k + 1 < |s| then Piece(s[k + 1..])
    else if k < 0 then Missing
    else var t := s[..k]; Piece(t[LastSlash(t) + 1..])
  }

  /** `extractRoomId` picks the segment `SegmentAt` locates. */
  lemma ExtractBySegment(s: string)
    ensures ExtractRoomId(Some(s)) == SegmentAt(s)
  {
    var ps := Split(s);
    var k := LastSlash(s);
    var last := s[k + 1..];
    assert ps[|ps| - 1] == last;
    if k + 1 < |s| {
      assert |last| > 0;
    } else if k < 0 {
      assert |ps| == 1 && last == "";
    } else {
      var t := s[..k];
      var init := Split(t);
      assert ps == init + [last];
      assert last == "";
      assert ps[|ps| - 2] == init[|init| - 1];
    }
  }

  /** The result never holds a "/": it is a single segment. */
  lemma ExtractedHasNoSlash(pathname: string)
    requires ExtractRoomId(Some(pathname)).Piece?
    ensures NoSlash(ExtractRoomId(Some(pathname)).s)
  {
    var s := pathname;
    var k := LastSlash(s);
    ExtractBySegment(s);
    if k + 1 < |s| {
      AfterLastSlash(s);
    } else {
      AfterLastSlash(s[..k]);
    }
  }

  /** A non-empty result is a segment of the path that ends it, either
      outright or followed by one "/", and is preceded by a "/" or nothing. */
  lemma ExtractedIsLastSegment(pathname: string)
    requires TruthyExtracted(ExtractRoomId(Some(pathname)))
    ensures var x := ExtractRoomId(Some(pathname)).s;
      exists p :: (p == "" || p[|p| - 1] == '/') && (pathname == p + x || pathname == p + x + "/")
  {
    var s := pathname;
    var k := LastSlash(s);
    ExtractBySegment(s);
    var p;
    if k + 1 < |s| {
      p := EndsAfterLastSlash(s);
    } else {
      p := EndsAfterSlashPair(s);
    }
  }

  /** A path ending in "/" is what runs up to the "/" before it, the
      segment between the two, and that final "/". */
  lemma EndsAfterSlashPair(s: string) returns (p: string)
    requires s != [] && s[|s| - 1] == '/'
    ensures var t := s[..|s| - 1];
      (p == "" || p[|p| - 1] == '/') && s == p + t[LastSlash(t) + 1..] + "/"
  {
    var t := s[..|s| - 1];
    p := EndsAfterLastSlash(t);
    assert s == t + "/";
  }

  /** A path is what runs up to its last "/" followed by the rest. */
  lemma EndsAfterLastSlash(s: string) returns (p: string)
    ensures p == "" || p[|p| - 1] == '/'
    ensures s == p + s[LastSlash(s) + 1..]
  {
    var k := LastSlash(s);
    if k < 0 {
      p := "";
    } else {
      p := s[..k + 1];
    }
  }

  /** The link of a room, with or without a trailing "/", yields its id. */
  lemma RoomLinkRoundTrip(prefix: string, roomId: string)
    requires roomId != "" && NoSlash(roomId)
    ensures ExtractRoomId(Some(prefix + "/" + roomId)) == Piece(roomId)
    ensures ExtractRoomId(Some(prefix + "/" + roomId + "/")) == Piece(roomId)
  {
    var link := prefix + "/" + roomId;
    LastSlashBefore(prefix, roomId);
    assert link[|prefix| + 1..] == roomId;
    ExtractBySegment(link);
    LastSlashBefore(link, "");
    assert link + "/" + "" == link + "/";
    assert (link + "/")[..|link|] == link;
    ExtractBySegment(link + "/");
  }

  // ---------------------------------------------------------------------
  // Joining a room

  /** `extractRoomId(input) || input`. */
  function Resolve(input: string, pathname: Option<string>): (roomId: string)
    ensures TruthyExtracted(ExtractRoomId(pathname)) ==> roomId == ExtractRoomId(pathname).s
    ensures !TruthyExtracted(ExtractRoomId(pathname)) ==> roomId == input
    ensures input != "" ==> roomId != ""
  {
    var e := ExtractRoomId(pathname);
    if TruthyExtracted(e) then e.s else input
  }

  /** The page of a room. */
  function RoomPage(roomId: string): string {
    JamBase + "/" + roomId
  }

  /** The popup's effects: the room id kept in extension storage, the
      messages sent to the background worker, the tabs opened and the
      alerts shown. */
  class PopupState {
    var storedRoomId: Option<string>
    var toBackground: seq<Json>
    var openedTabs: seq<string>
    var alerts: nat

    constructor (stored: Option<string>)
      ensures storedRoomId == stored && toBackground == [] && openedTabs == [] && alerts == 0
    {
      storedRoomId, toBackground, openedTabs, alerts := stored, [], [], 0;
    }

    /** The Join button. `value` is the text field; `pathname` is what
        `new URL` makes of the trimmed text. A blank field only raises an
        alert; otherwise the resolved id, never empty, is saved, sent to
        the background worker as `set-room`, and its page is opened. */
    method OnJoinClick(value: string, pathname: Option<string>) returns (joined: Option<string>)
      modifies this
      ensures AllSpace(value) ==> (joined.None? && alerts == old(alerts) + 1
        && storedRoomId == old(storedRoomId) && toBackground == old(toBackground)
        && openedTabs == old(openedTabs))
      ensures !AllSpace(value) ==> (joined == Some(Resolve(Trim(value), pathname)) && joined.value != ""
        && alerts == old(alerts) && storedRoomId == joined
        && toBackground == old(toBackground) + [JObj(map["type" := JStr("set-room"), "roomId" := JStr(joined.value)])]
        && openedTabs == old(openedTabs) + [RoomPage(joined.value)])
    {
      var input := Trim(value);
      TrimEmptyIffAllSpace(value);
      if input == "" {
        alerts := alerts + 1;
        return None;
      }
      var roomId := Resolve(input, pathname);
      storedRoomId := Some(roomId);
      toBackground := toBackground + [JObj(map["type" := JStr("set-room"), "roomId" := JStr(roomId)])];
      openedTabs := openedTabs + [RoomPage(roomId)];
      joined := Some(roomId);
    }
  }

  /** Room ids as the app generates them: ASCII letters and digits (the
      creation forms draw from A-Z, a-z and 0-9, the popup from base 36).
      Such an id appears unchanged in a page's path; any other character
      may be percent-encoded there. */
  predicate PlainId(s: string) {
    forall i :: 0 <= i < |s| ==> 'a' <= s[i] <= 'z' || 'A' <= s[i] <= 'Z' || '0' <= s[i] <= '9'
  }

  /** Pasting the page link of a room joins that very room: the page's path
      is `/jam/<id>`, and its last segment is the id. */
  lemma JoinByPageLink(roomId: string)
    requires roomId != "" && PlainId(roomId)
    ensures Resolve(RoomPage(roomId), Some("/jam/" + roomId)) == roomId
  {
    assert NoSlash(roomId);
    RoomLinkRoundTrip("/jam", roomId);
    assert "/jam" + "/" + roomId == "/jam/" + roomId;
  }
}
