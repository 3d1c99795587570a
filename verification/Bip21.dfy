/** Rewriting a BIP21 URI so that it carries one `message`, percent-encoded (RFC 3986, section 2.1). */
module Bip21 {
  import opened Base
  import opened Split

  const QUESTION: byte := 63
  const AMPERSAND: byte := 38
  const EQUALS: byte := 61
  const PERCENT: byte := 37

  /** "message" */
  const MESSAGE: Text := [109, 101, 115, 115, 97, 103, 101]

  // --- Percent encoding ---

  /** The unreserved characters of RFC 3986, section 2.3. */
  predicate Unreserved(b: byte) {
    65 <= b <= 90 || 97 <= b <= 122 || 48 <= b <= 57 || b == 45 || b == 46 || b == 95 || b == 126
  }

  function HexDigit(d: nat): byte
    requires d < 16
  {
    if d < 10 then 48 + d else 55 + d
  }

  function HexValue(b: byte): Option<nat> {
    if 48 <= b <= 57 then Some(b - 48)
    else if 65 <= b <= 70 then Some(b - 55)
    else if 97 <= b <= 102 then Some(b - 87)
    else None
  }

  function EncodeByte(b: byte): Text {
    if Unreserved(b) then [b] else [PERCENT, HexDigit(b / 16), HexDigit(b % 16)]
  }

  /** The byte of an ASCII character. */
  function Ascii(c: char): int {
    c as int
  }

  const HEX: string := "0123456789ABCDEF"

  /** What stays as it is are the letters, the digits and the four marks that section lists. */
  lemma UnreservedIff(b: byte)
    ensures Unreserved(b) <==>
      || Ascii('A') <= b <= Ascii('Z') || Ascii('a') <= b <= Ascii('z') || Ascii('0') <= b <= Ascii('9')
      || b in {Ascii('-'), Ascii('.'), Ascii('_'), Ascii('~')}
  {
  }

  /** Every other byte becomes a percent sign and its two digits, in upper case. */
  lemma EscapedIff(b: byte)
    ensures |EncodeByte(b)| == (if Unreserved(b) then 1 else 3)
    ensures Unreserved(b) ==> EncodeByte(b) == [b]
    ensures !Unreserved(b) ==>
      && EncodeByte(b)[0] == Ascii('%')
      && Ascii(HEX[b / 16]) == EncodeByte(b)[1] && Ascii(HEX[b % 16]) == EncodeByte(b)[2]
  {
    HexIs(b / 16);
    HexIs(b % 16);
  }

  const LOWER_HEX: string := "0123456789abcdef"

  /** A reader takes digits of either case, and nothing else. */
  lemma HexReadIff(b: byte, d: nat)
    ensures HexValue(b) == Some(d) <==> d < 16 && (b == Ascii(HEX[d]) || b == Ascii(LOWER_HEX[d]))
  {
  }

  lemma HexIs(d: nat)
    requires d < 16
    ensures HexDigit(d) == Ascii(HEX[d])
  {
  }

  /** The separators and the parameter's name are the characters the URI scheme writes. */
  lemma Spelled()
    ensures QUESTION == Ascii('?') && AMPERSAND == Ascii('&') && EQUALS == Ascii('=') && PERCENT == Ascii('%')
    ensures |MESSAGE| == |"message"| && forall i :: 0 <= i < |MESSAGE| ==> MESSAGE[i] == Ascii("message"[i])
  {
  }

  function PercentEncode(s: Text): (r: Text)
    ensures forall b :: b in r ==> Unreserved(b) || b == PERCENT
  {
    if s == [] then [] else EncodeByte(s[0]) + PercentEncode(s[1..])
  }

  function PercentDecode(s: Text): Option<Text> {
    if s == [] then Some([])
    else if s[0] != PERCENT then
      match PercentDecode(s[1..])
      case None => None
      case Some(rest) => Some([s[0]] + rest)
    else if |s| < 3 || HexValue(s[1]).None? || HexValue(s[2]).None? then None
    else
      match PercentDecode(s[3..])
      case None => None
      case Some(rest) => Some([16 * HexValue(s[1]).value + HexValue(s[2]).value] + rest)
  }

  lemma {:induction false} DecodeOfEncode(s: Text)
    ensures PercentDecode(PercentEncode(s)) == Some(s)
  {
    if s != [] {
      DecodeOfEncode(s[1..]);
      var rest := PercentEncode(s[1..]);
      assert s == [s[0]] + s[1..];
      if Unreserved(s[0]) {
        assert PercentEncode(s)[1..] == rest;
      } else {
        assert PercentEncode(s)[3..] == rest;
      }
    }
  }

  lemma {:induction false} EncodeSnoc(s: Text, b: byte)
    ensures PercentEncode(s + [b]) == PercentEncode(s) + EncodeByte(b)
  {
    if s == [] {
      assert PercentEncode([b][1..]) == [];
    } else {
      assert (s + [b])[1..] == s[1..] + [b];
      EncodeSnoc(s[1..], b);
    }
  }

  method PercentEncodeQueryValue(value: Text) returns (encoded: Text)
    ensures encoded == PercentEncode(value)
  {
    encoded := [];
    for i := 0 to |value|
      invariant encoded == PercentEncode(value[..i])
    {
      var b := value[i];
      EncodeSnoc(value[..i], b);
      assert value[..i+1] == value[..i] + [b];
      if Unreserved(b) {
        encoded := encoded + [b];
      } else {
        encoded := encoded + [PERCENT, HexDigit(b / 16), HexDigit(b % 16)];
      }
    }
    assert value[..|value|] == value;
  }

  // --- The query ---

  function Key(part: Text): Text {
    match SplitOnce(part, EQUALS)
    case None => part
    case Some((key, _)) => key
  }

  predicate Keep(part: Text) {
    part != [] && Key(part) != MESSAGE
  }

  function Kept(parts: seq<Text>): (r: seq<Text>)
    ensures forall p :: p in r ==> p in parts && Keep(p)
  {
    if parts == [] then []
    else (if Keep(parts[0]) then [parts[0]] else []) + Kept(parts[1..])
  }

  function BaseOf(uri: Text): Text {
    match SplitOnce(uri, QUESTION)
    case None => uri
    case Some((base, _)) => base
  }

  function Params(uri: Text): (parts: seq<Text>)
    ensures forall p :: p in parts ==> AMPERSAND !in p
  {
    match SplitOnce(uri, QUESTION)
    case None => []
    case Some((_, query)) => SplitOn(query, AMPERSAND)
  }

  function MessageParam(message: Text): (r: Text)
    ensures AMPERSAND !in r && r != []
  {
    MESSAGE + [EQUALS] + PercentEncode(message)
  }

  function Append(uri: Text, message: Text): Text {
    BaseOf(uri) + [QUESTION] + JoinWith(Kept(Params(uri)) + [MessageParam(message)], AMPERSAND)
  }

  lemma {:induction false} KeptAppend(a: seq<Text>, b: seq<Text>)
    ensures Kept(a + b) == Kept(a) + Kept(b)
  {
    if a == [] {
      assert a + b == b;
    } else {
      assert (a + b)[1..] == a[1..] + b;
      KeptAppend(a[1..], b);
    }
  }

  lemma KeptSnoc(parts: seq<Text>, p: Text)
    ensures Kept(parts + [p]) == if Keep(p) then Kept(parts) + [p] else Kept(parts)
  {
    KeptAppend(parts, [p]);
  }

  lemma KeptNext(parts: seq<Text>, i: nat)
    requires i < |parts|
    ensures Kept(parts[..i + 1]) == if Keep(parts[i]) then Kept(parts[..i]) + [parts[i]] else Kept(parts[..i])
  {
    KeptSnoc(parts[..i], parts[i]);
    assert parts[..i + 1] == parts[..i] + [parts[i]];
  }

  method KeepParams(parts: seq<Text>) returns (params: seq<Text>)
    ensures params == Kept(parts)
  {
    params := [];
    for i := 0 to |parts|
      invariant params == Kept(parts[..i])
    {
      KeptNext(parts, i);
      if Keep(parts[i]) {
        params := params + [parts[i]];
      }
    }
    assert parts[..|parts|] == parts;
  }

  method AppendMessage(uri: Text, message: Text) returns (r: Text)
    ensures r == Append(uri, message)
  {
    var encoded := PercentEncodeQueryValue(message);
    var params := KeepParams(Params(uri));
    params := params + [MESSAGE + [EQUALS] + encoded];
    r := BaseOf(uri) + [QUESTION] + JoinWith(params, AMPERSAND);
  }

  /** What is kept of a query: everything but empty parts, a bare `message`, and what begins with `message=`. */
  lemma KeepIff(part: Text)
    ensures Keep(part) <==> part != [] && part != MESSAGE && !(MESSAGE + [Ascii('=')] <= part)
  {
    SplitOnceIff(MESSAGE, part, EQUALS);
  }

  /** The base ends at the first question mark, and the query after it is cut at its ampersands. */
  lemma UriParts(base: Text, query: Text)
    requires QUESTION !in base
    ensures BaseOf(base) == base && Params(base) == []
    ensures BaseOf(base + [Ascii('?')] + query) == base
    ensures JoinWith(Params(base + [Ascii('?')] + query), Ascii('&')) == query
  {
    SplitOnceOfPrefixed(base, query, QUESTION);
    JoinOfSplit(query, AMPERSAND);
  }

  /** What a wallet reads: the decoded value of the first `message` parameter. */
  function ReadMessage(uri: Text): Option<Text> {
    FirstMessage(Params(uri))
  }

  function FirstMessage(parts: seq<Text>): Option<Text> {
    if parts == [] then None
    else match SplitOnce(parts[0], EQUALS)
      case Some((key, value)) => if key == MESSAGE then PercentDecode(value) else FirstMessage(parts[1..])
      case None => FirstMessage(parts[1..])
  }

  lemma {:induction false} KeptAll(parts: seq<Text>)
    requires forall p :: p in parts ==> Keep(p)
    ensures Kept(parts) == parts
  {
    if parts != [] {
      KeptAll(parts[1..]);
    }
  }

  lemma KeyOfMessageParam(message: Text)
    ensures SplitOnce(MessageParam(message), EQUALS) == Some((MESSAGE, PercentEncode(message)))
    ensures !Keep(MessageParam(message))
  {
    SplitOnceOfPrefixed(MESSAGE, PercentEncode(message), EQUALS);
  }

  /** Main result: the base is kept, every other non-empty parameter is kept in order, and the one
      `message` parameter comes last. */
  lemma AppendShape(uri: Text, message: Text)
    ensures BaseOf(Append(uri, message)) == BaseOf(uri)
    ensures Params(Append(uri, message)) == Kept(Params(uri)) + [MessageParam(message)]
    ensures Kept(Params(Append(uri, message))) == Kept(Params(uri))
  {
    var parts := Kept(Params(uri)) + [MessageParam(message)];
    SplitOnceOfPrefixed(BaseOf(uri), JoinWith(parts, AMPERSAND), QUESTION);
    SplitOfJoin(parts, AMPERSAND);
    KeptAppend(Kept(Params(uri)), [MessageParam(message)]);
    KeptAll(Kept(Params(uri)));
    KeyOfMessageParam(message);
  }

  lemma {:induction false} FirstMessageSkips(parts: seq<Text>, last: Text)
    requires forall p :: p in parts ==> Keep(p)
    ensures FirstMessage(parts + [last]) == FirstMessage([last])
  {
    if parts == [] {
      assert parts + [last] == [last];
    } else {
      assert (parts + [last])[1..] == parts[1..] + [last] && Keep(parts[0]);
      FirstMessageSkips(parts[1..], last);
    }
  }

  /** Main result: the last message wins, and a reader gets its bytes back. */
  lemma AppendOverwrites(uri: Text, first: Text, second: Text)
    ensures Append(Append(uri, first), second) == Append(uri, second)
    ensures ReadMessage(Append(uri, first)) == Some(first)
  {
    AppendShape(uri, first);
    FirstMessageSkips(Kept(Params(uri)), MessageParam(first));
    KeyOfMessageParam(first);
    DecodeOfEncode(first);
  }
}
