/** Values shared by every part of the model: optional values, JSON values
    as the browser and the server see them after `JSON.parse`, JavaScript
    truthiness, and the two string helpers the source relies on
    (`String.prototype.trim` and `toLowerCase`). */
module Base {

  datatype Option<T> = None | Some(value: T)

  /** A JSON value. Numbers are the finite doubles JSON can carry, kept as reals. */
  datatype Json =
    | JNull
    | JBool(b: bool)
    | JNum(n: real)
    | JStr(s: string)
    | JArr(items: seq<Json>)
    | JObj(fields: map<string, Json>)

  /** The result of reading a property: `undefined` or a JSON value. */
  datatype Prop = Undefined | Defined(value: Json)

  /** `data[key]` for a non-null value: only objects carry the keys the
      source reads; reading one of them from a string, number, boolean or
      array gives `undefined`. (Reading from `null` throws; callers test
      `JNull?` first.) */
  function Field(data: Json, key: string): (p: Prop)
    ensures p.Defined? <==> data.JObj? && key in data.fields
    ensures p.Defined? ==> p.value == data.fields[key]
  {
    if data.JObj? && key in data.fields then Defined(data.fields[key]) else Undefined
  }

  /** JavaScript truthiness of a property value. */
  predicate Truthy(p: Prop) {
    match p
    case Undefined => false
    case Defined(v) =>
      match v
      case JNull => false
      case JBool(b) => b
      case JNum(n) => n != 0.0
      case JStr(s) => s != ""
      case JArr(_) => true
      case JObj(_) => true
  }

  /** `p === s` for a string literal or string variable `s`. */
  predicate IsStr(p: Prop, s: string) {
    p == Defined(JStr(s))
  }

  /** `typeof p === "number"`. */
  predicate IsNumber(p: Prop) {
    p.Defined? && p.value.JNum?
  }

  /** `!x` is false for an optional string field of a request body. */
  predicate Present(x: Option<string>) {
    x.Some? && x.value != ""
  }

  /** `{...fields, [key]: p}` as `JSON.stringify` writes it: a member whose
      value is `undefined` is left out. */
  function Put(fields: map<string, Json>, key: string, p: Prop): (r: map<string, Json>)
    ensures Field(JObj(r), key) == p
    ensures forall k :: k != key ==> Field(JObj(r), k) == Field(JObj(fields), k)
  {
    if p.Defined? then fields[key := p.value] else fields - {key}
  }

  // ---------------------------------------------------------------------
  // Whitespace and `trim`

  /** The characters `String.prototype.trim` removes: WhiteSpace and
      LineTerminator of ECMA-262. */
  predicate IsSpace(c: char) {
    c == ' ' || c == '\t' || c == '\n' || c == '\r' || c == '\U{000B}' || c == '\U{000C}'
    || c == '\U{00A0}' || c == '\U{1680}' || ('\U{2000}' <= c <= '\U{200A}')
    || c == '\U{2028}' || c == '\U{2029}' || c == '\U{202F}' || c == '\U{205F}'
    || c == '\U{3000}' || c == '\U{FEFF}'
  }

  predicate AllSpace(s: string) {
    forall i :: 0 <= i < |s| ==> IsSpace(s[i])
  }

  /** How many whitespace characters `s` starts with. */
  function LeadingSpace(s: string): (k: nat)
    ensures k <= |s|
    ensures forall i :: 0 <= i < k ==> IsSpace(s[i])
    ensures k < |s| ==> !IsSpace(s[k])
  {
    if s != [] && IsSpace(s[0]) then 1 + LeadingSpace(s[1..]) else 0
  }

  /** How many whitespace characters `s` ends with. */
  function TrailingSpace(s: string): (k: nat)
    ensures k <= |s|
    ensures forall i :: |s| - k <= i < |s| ==> IsSpace(s[i])
    ensures k < |s| ==> !IsSpace(s[|s| - 1 - k])
  {
    if s != [] && IsSpace(s[|s| - 1]) then 1 + TrailingSpace(s[..|s| - 1]) else 0
  }

  /** `s.trim()`: the leading whitespace is cut, then the trailing
      whitespace of what is left. */
  function Trim(s: string): (t: string)
    ensures |t| <= |s|
    ensures s != [] && !IsSpace(s[0]) && !IsSpace(s[|s| - 1]) ==> t == s
  {
    var i := LeadingSpace(s);
    s[i..|s| - TrailingSpace(s[i..])]
  }

  /** The trimmed text is an infix of the input, only whitespace was cut
      from either end, and neither end of the result is whitespace. */
  lemma TrimIsInfix(s: string)
    ensures exists i, j ::
      0 <= i <= j <= |s| && Trim(s) == s[i..j] && AllSpace(s[..i]) && AllSpace(s[j..])
    ensures Trim(s) == [] || (!IsSpace(Trim(s)[0]) && !IsSpace(Trim(s)[|Trim(s)| - 1]))
  {
    var i := LeadingSpace(s);
    var t := s[i..];
    var k := TrailingSpace(t);
    var j := |s| - k;
    assert forall n :: 0 <= n < |s[..i]| ==> s[..i][n] == s[n];
    assert forall n :: 0 <= n < |s[j..]| ==> s[j..][n] == t[|t| - k + n];
    assert Trim(s) == s[i..j] && AllSpace(s[..i]) && AllSpace(s[j..]);
    if i < j {
      assert Trim(s)[0] == s[i];
      assert Trim(s)[|Trim(s)| - 1] == t[|t| - 1 - k];
    }
  }

  /** `!s.trim()` holds exactly when `s` is empty or all whitespace. */
  lemma TrimEmptyIffAllSpace(s: string)
    ensures Trim(s) == "" <==> AllSpace(s)
  {
    var i := LeadingSpace(s);
    var t := s[i..];
    if i < |s| {
      assert t[0] == s[i];
      assert TrailingSpace(t) < |t|;
      assert !AllSpace(s);
    }
  }

  /** Trimming twice is trimming once. */
  lemma TrimIdempotent(s: string)
    ensures Trim(Trim(s)) == Trim(s)
  {
    TrimIsInfix(s);
    var r := Trim(s);
    if r != [] {
      assert LeadingSpace(r) == 0;
      assert r[0..] == r;
      assert TrailingSpace(r) == 0;
    }
  }

  // ---------------------------------------------------------------------
  // Case folding

  /** `toLowerCase` restricted to ASCII letters (wallet addresses are hex). */
  function LowerChar(c: char): char {
    if 'A' <= c <= 'Z' then (c as int + 32) as char else c
  }

  function ToLower(s: string): (r: string)
    ensures |r| == |s|
    ensures forall i :: 0 <= i < |s| ==> r[i] == LowerChar(s[i])
  {
    seq(|s|, i requires 0 <= i < |s| => LowerChar(s[i]))
  }

  /** `a.toLowerCase() === b.toLowerCase()`. */
  function SameIgnoringCase(a: string, b: string): (same: bool)
    ensures same ==> |a| == |b|
    ensures a == b ==> same
  {
    ToLower(a) == ToLower(b)
  }

  /** Two strings agree ignoring case exactly when they agree letter by
      letter after lowering; in particular upper- and lower-case forms of
      the same hex address agree. */
  lemma SameIgnoringCaseCharwise(a: string, b: string)
    ensures SameIgnoringCase(a, b) <==>
      |a| == |b| && forall i :: 0 <= i < |a| ==> LowerChar(a[i]) == LowerChar(b[i])
  {
    if |a| == |b| && forall i :: 0 <= i < |a| ==> LowerChar(a[i]) == LowerChar(b[i]) {
      assert forall i :: 0 <= i < |a| ==> ToLower(a)[i] == ToLower(b)[i];
    }
  }

  // ---------------------------------------------------------------------
  // Sequences without repetition (a JavaScript `Set` in insertion order)

  predicate Distinct<T(==)>(s: seq<T>) {
    forall i, j :: 0 <= i < j < |s| ==> s[i] != s[j]
  }

  /** A sequence without repetition holds each of its elements once. */
  lemma {:induction false} DistinctCount<T>(s: seq<T>)
    requires Distinct(s)
    ensures forall x :: multiset(s)[x] == if x in s then 1 else 0
  {
    if s != [] {
      var init, last := s[..|s| - 1], s[|s| - 1];
      assert forall i :: 0 <= i < |init| ==> init[i] == s[i] && init[i] != last;
      DistinctCount(init);
      assert s == init + [last];
    }
  }

  /** `set.delete(x)` on an insertion-ordered set. */
  function Without<T(==,!new)>(s: seq<T>, x: T): (r: seq<T>)
    ensures forall y :: y in r <==> y in s && y != x
    ensures Distinct(s) ==> Distinct(r)
    ensures Distinct(s) && x in s ==> |r| == |s| - 1
    ensures x !in s ==> r == s
  {
    if s == [] then []
    else if s[0] == x then Without(s[1..], x)
    else
      assert Distinct(s) ==> s[0] !in s[1..];
      [s[0]] + Without(s[1..], x)
  }

  /** `set.delete(x)` keeps the remaining members in insertion order: the
      result is the set with the position of `x` cut out. */
  lemma {:induction false} WithoutKeepsOrder<T(!new)>(s: seq<T>, x: T, k: int)
    requires Distinct(s) && 0 <= k < |s| && s[k] == x
    ensures Without(s, x) == s[..k] + s[k + 1..]
  {
    if s[0] == x {
      assert k == 0;
      assert x !in s[1..];
    } else {
      assert Distinct(s[1..]) by {
        forall i, j | 0 <= i < j < |s[1..]| ensures s[1..][i] != s[1..][j] {
          assert s[1..][i] == s[i + 1] && s[1..][j] == s[j + 1];
        }
      }
      WithoutKeepsOrder(s[1..], x, k - 1);
      assert s[..k] == [s[0]] + s[1..][..k - 1];
      assert s[k + 1..] == s[1..][k..];
    }
  }
}
