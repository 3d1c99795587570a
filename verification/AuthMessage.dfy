/** The message a Lightning Address action signs: NUL-framed components, any number of payload fields,
    the decimal timestamp last. */
module AuthMessage {
  import opened Base
  import opened Split

  const NUL: byte := 0

  /** "bullpay-la-v2" */
  const DOMAIN_TAG: Text := [98, 117, 108, 108, 112, 97, 121, 45, 108, 97, 45, 118, 50]

  const U64_MAX: nat := 0xFFFF_FFFF_FFFF_FFFF

  type u64 = n: int | 0 <= n <= U64_MAX

  datatype Request = Request(action: Text, npub: Text, nym: Text, fields: seq<Text>, timestamp: u64)

  // --- Decimal numbers ---

  function Decimal(n: nat): (s: Text)
    ensures s != [] && NUL !in s
  {
    if n < 10 then [48 + n] else Decimal(n / 10) + [48 + n % 10]
  }

  /** The number a canonical decimal names: digits only, no leading zero. */
  function ParseDecimal(s: Text): (r: Option<nat>) {
    if s == [] || !(48 <= s[|s|-1] <= 57) then None
    else if |s| == 1 then Some(s[0] - 48)
    else match ParseDecimal(s[..|s|-1])
      case None => None
      case Some(high) => if high == 0 then None else Some(10 * high + s[|s|-1] - 48)
  }

  lemma {:induction false} DecimalRoundTrip(n: nat)
    ensures ParseDecimal(Decimal(n)) == Some(n)
  {
    if n >= 10 {
      DecimalRoundTrip(n / 10);
      assert Decimal(n)[..|Decimal(n)|-1] == Decimal(n / 10);
    }
  }

  lemma LastDigit(high: nat, low: nat)
    requires low < 10
    ensures (10 * high + low) / 10 == high && (10 * high + low) % 10 == low
  {
  }

  lemma {:induction false} DecimalCanonical(s: Text)
    requires ParseDecimal(s).Some?
    ensures Decimal(ParseDecimal(s).value) == s
  {
    if |s| > 1 {
      var init := s[..|s|-1];
      DecimalCanonical(init);
      var high, low := ParseDecimal(init).value, s[|s|-1] - 48;
      LastDigit(high, low);
      assert s == init + [s[|s|-1]];
    }
  }

  // --- The frame ---

  function Components(x: Request): (parts: seq<Text>)
    ensures |parts| >= 5
  {
    [DOMAIN_TAG, x.action, x.npub, x.nym] + x.fields + [Decimal(x.timestamp)]
  }

  function Encode(x: Request): Text {
    JoinWith(Components(x), NUL)
  }

  function Decode(message: Text): Option<Request> {
    var parts := SplitOn(message, NUL);
    if |parts| < 5 || parts[0] != DOMAIN_TAG then None
    else match ParseDecimal(parts[|parts|-1])
      case None => None
      case Some(ts) =>
        if ts > U64_MAX then None
        else Some(Request(parts[1], parts[2], parts[3], parts[4..|parts|-1], ts))
  }

  predicate NulFree(x: Request) {
    NUL !in x.action && NUL !in x.npub && NUL !in x.nym && forall f :: f in x.fields ==> NUL !in f
  }

  /** Each part followed by a NUL. */
  ghost function Framed(parts: seq<Text>): Text {
    if parts == [] then [] else JoinWith(parts, NUL) + [NUL]
  }

  lemma FramedSnoc(parts: seq<Text>, last: Text)
    ensures JoinWith(parts + [last], NUL) == Framed(parts) + last
  {
    if parts != [] {
      JoinSnoc(parts, last, NUL);
    } else {
      assert parts + [last] == [last];
    }
  }

  lemma FramedGrows(parts: seq<Text>, p: Text)
    ensures Framed(parts + [p]) == Framed(parts) + p + [NUL]
  {
    FramedSnoc(parts, p);
  }

  method PushFields(start: Text, ghost head: seq<Text>, fields: seq<Text>) returns (message: Text)
    requires start == Framed(head)
    ensures message == Framed(head + fields)
  {
    message := start;
    assert head + fields[..0] == head;
    for i := 0 to |fields|
      invariant message == Framed(head + fields[..i])
    {
      FramedGrows(head + fields[..i], fields[i]);
      assert head + fields[..i+1] == head + fields[..i] + [fields[i]];
      message := message + fields[i];
      message := message + [NUL];
    }
    assert fields[..|fields|] == fields;
  }

  method BuildMessage(action: Text, npub: Text, nym: Text, fields: seq<Text>, timestamp: u64) returns (message: Text)
    ensures message == Encode(Request(action, npub, nym, fields, timestamp))
  {
    message := DOMAIN_TAG;
    message := message + [NUL];
    ghost var head := [DOMAIN_TAG];
    FramedGrows(head, action);
    message := message + action;
    message := message + [NUL];
    head := head + [action];
    FramedGrows(head, npub);
    message := message + npub;
    message := message + [NUL];
    head := head + [npub];
    FramedGrows(head, nym);
    message := message + nym;
    message := message + [NUL];
    head := head + [nym];
    message := PushFields(message, head, fields);
    FramedSnoc(head + fields, Decimal(timestamp));
    message := message + Decimal(timestamp);
    assert Components(Request(action, npub, nym, fields, timestamp)) == head + fields + [Decimal(timestamp)];
  }

  /** Main result: the decoder reads every message built, and gives back the very request exactly when no
      component holds a NUL. */
  lemma DecodeOfEncode(x: Request)
    ensures Decode(Encode(x)).Some? && Encode(Decode(Encode(x)).value) == Encode(x)
    ensures Decode(Encode(x)) == Some(x) <==> NulFree(x)
  {
    SplitShape(x);
    DecimalRoundTrip(x.timestamp);
    EncodeOfDecode(Encode(x));
    if NulFree(x) {
      SplitOfJoin(Components(x), NUL);
    }
  }

  /** Whatever the components hold, the tag comes first and the timestamp last, with three separators
      or more between. */
  lemma SplitShape(x: Request)
    ensures var parts := SplitOn(Encode(x), NUL);
      |parts| >= 5 && parts[0] == DOMAIN_TAG && parts[|parts|-1] == Decimal(x.timestamp)
  {
    var whole := Components(x);
    var most := whole[..|whole|-1];
    assert whole == most + [Decimal(x.timestamp)];
    JoinSnoc(most, Decimal(x.timestamp), NUL);
    SplitOfConcat(JoinWith(most, NUL), Decimal(x.timestamp), NUL);
    SplitOfPlain(Decimal(x.timestamp), NUL);
    SplitCount(most, NUL);
    SplitOfPrefixed(DOMAIN_TAG, JoinWith(most[1..], NUL), NUL);
  }

  lemma {:induction false} SplitOfConcat(a: Text, b: Text, sep: byte)
    ensures SplitOn(a + [sep] + b, sep) == SplitOn(a, sep) + SplitOn(b, sep)
  {
    if a == [] {
      assert (a + [sep] + b)[1..] == b;
    } else {
      var t := a[1..];
      SplitOfConcat(t, b, sep);
      assert a == [a[0]] + t && a + [sep] + b == [a[0]] + (t + [sep] + b);
      SplitFirst(a[0], t, sep);
      SplitFirst(a[0], t + [sep] + b, sep);
      Glued(a[0], SplitOn(t, sep), SplitOn(b, sep), sep);
    }
  }

  /** A first byte in front of the pieces of the rest. */
  function InFront(c: byte, rest: seq<Text>, sep: byte): seq<Text>
    requires rest != []
  {
    if c == sep then [[]] + rest else [[c] + rest[0]] + rest[1..]
  }

  lemma SplitFirst(c: byte, s: Text, sep: byte)
    ensures SplitOn([c] + s, sep) == InFront(c, SplitOn(s, sep), sep)
  {
    assert ([c] + s)[1..] == s;
  }

  lemma Glued(c: byte, a: seq<Text>, b: seq<Text>, sep: byte)
    requires a != []
    ensures InFront(c, a + b, sep) == InFront(c, a, sep) + b
  {
    assert (a + b)[1..] == a[1..] + b;
  }

  lemma {:induction false} SplitCount(parts: seq<Text>, sep: byte)
    requires parts != []
    ensures |SplitOn(JoinWith(parts, sep), sep)| >= |parts|
  {
    if |parts| > 1 {
      SplitOfConcat(parts[0], JoinWith(parts[1..], sep), sep);
      SplitCount(parts[1..], sep);
    }
  }

  /** A message the decoder reads is the one its request builds. */
  lemma EncodeOfDecode(message: Text)
    ensures Decode(message).Some? ==> Encode(Decode(message).value) == message && NulFree(Decode(message).value)
  {
    var parts := SplitOn(message, NUL);
    if Decode(message).Some? {
      var x := Decode(message).value;
      DecimalCanonical(parts[|parts|-1]);
      assert Components(x) == parts;
      JoinOfSplit(message, NUL);
    }
  }

  /** So among NUL-free requests the message tells everything apart: the action, the key, the nym (empty
      or not), the number of fields and each of them, and the timestamp. A request with a NUL in it always
      has the message of another one, without. */
  lemma MessageInjectiveIff(x: Request)
    ensures NulFree(x) <==> forall y :: NulFree(y) && Encode(y) == Encode(x) ==> y == x
  {
    DecodeOfEncode(x);
    EncodeOfDecode(Encode(x));
    forall y | NulFree(y) && Encode(y) == Encode(x) && NulFree(x) ensures y == x {
      DecodeOfEncode(y);
    }
  }

  /** Byte for byte: the domain tag, the action, the key, the nym and every field, each with a NUL after it, and
      the timestamp in decimal. */
  lemma Layout(x: Request)
    ensures Encode(x) == Tag() + [0] + x.action + [0] + x.npub + [0] + x.nym + [0] + Fields(x.fields)
      + Decimal(x.timestamp)
  {
    TagIs();
    FramedGrows([], DOMAIN_TAG);
    FramedGrows([DOMAIN_TAG], x.action);
    FramedGrows([DOMAIN_TAG] + [x.action], x.npub);
    var head := [DOMAIN_TAG] + [x.action] + [x.npub] + [x.nym];
    FramedGrows([DOMAIN_TAG] + [x.action] + [x.npub], x.nym);
    assert [] + [DOMAIN_TAG] == [DOMAIN_TAG];
    FramedFields(head, x.fields);
    FramedSnoc(head + x.fields, Decimal(x.timestamp));
    assert Components(x) == head + x.fields + [Decimal(x.timestamp)];
  }

  ghost function Fields(fields: seq<Text>): Text {
    if fields == [] then [] else Fields(fields[..|fields|-1]) + fields[|fields|-1] + [0]
  }

  lemma {:induction false} FramedFields(head: seq<Text>, fields: seq<Text>)
    ensures Framed(head + fields) == Framed(head) + Fields(fields)
  {
    if fields == [] {
      assert head + fields == head;
    } else {
      var init, last := fields[..|fields|-1], fields[|fields|-1];
      FramedFields(head, init);
      assert head + fields == head + init + [last];
      FramedGrows(head + init, last);
    }
  }

  const TAG: string := "bullpay-la-v2"

  function Tag(): Text {
    seq(|TAG|, i requires 0 <= i < |TAG| => if TAG[i] < 256 as char then TAG[i] as int else 0)
  }

  lemma TagIs()
    ensures DOMAIN_TAG == Tag()
  {
  }
}
