/** Splitting and joining on a separator. Text is UTF-8 bytes: every separator the service uses is
    ASCII, which never occurs inside a multi-byte character. */
module Split {
  import opened Base

  type byte = n: int | 0 <= n < 256

  type Text = seq<byte>

  /** The pieces between the separators: one more than there are separators. */
  function SplitOn(s: Text, sep: byte): (parts: seq<Text>)
    ensures parts != []
    ensures forall p :: p in parts ==> sep !in p
  {
    if s == [] then [[]]
    else
      var rest := SplitOn(s[1..], sep);
      if s[0] == sep then [[]] + rest else [[s[0]] + rest[0]] + rest[1..]
  }

  function JoinWith(parts: seq<Text>, sep: byte): Text {
    if parts == [] then []
    else if |parts| == 1 then parts[0]
    else parts[0] + [sep] + JoinWith(parts[1..], sep)
  }

  lemma {:induction false} JoinOfSplit(s: Text, sep: byte)
    ensures JoinWith(SplitOn(s, sep), sep) == s
  {
    if s != [] {
      var rest := SplitOn(s[1..], sep);
      JoinOfSplit(s[1..], sep);
      assert s == [s[0]] + s[1..];
      if s[0] == sep {
        assert SplitOn(s, sep)[1..] == rest;
      } else {
        assert SplitOn(s, sep)[1..] == rest[1..];
      }
    }
  }

  lemma {:induction false} SplitOfPrefixed(p: Text, s: Text, sep: byte)
    requires sep !in p
    ensures SplitOn(p + [sep] + s, sep) == [p] + SplitOn(s, sep)
  {
    if p == [] {
      assert (p + [sep] + s)[1..] == s;
    } else {
      assert (p + [sep] + s)[1..] == p[1..] + [sep] + s;
      SplitOfPrefixed(p[1..], s, sep);
      assert p == [p[0]] + p[1..];
    }
  }

  lemma {:induction false} SplitOfPlain(p: Text, sep: byte)
    requires sep !in p
    ensures SplitOn(p, sep) == [p]
  {
    if p != [] {
      assert p == [p[0]] + p[1..];
      SplitOfPlain(p[1..], sep);
    }
  }

  lemma {:induction false} SplitOfJoin(parts: seq<Text>, sep: byte)
    requires parts != [] && forall p :: p in parts ==> sep !in p
    ensures SplitOn(JoinWith(parts, sep), sep) == parts
  {
    if |parts| == 1 {
      SplitOfPlain(parts[0], sep);
    } else {
      SplitOfPrefixed(parts[0], JoinWith(parts[1..], sep), sep);
      SplitOfJoin(parts[1..], sep);
    }
  }

  lemma {:induction false} JoinSnoc(parts: seq<Text>, last: Text, sep: byte)
    requires parts != []
    ensures JoinWith(parts + [last], sep) == JoinWith(parts, sep) + [sep] + last
  {
    if |parts| > 1 {
      JoinSnoc(parts[1..], last, sep);
      assert (parts + [last])[1..] == parts[1..] + [last];
    } else {
      assert (parts + [last])[1..] == [last];
    }
  }

  /** The text before and after the first separator, if there is one. */
  function SplitOnce(s: Text, sep: byte): (r: Option<(Text, Text)>)
    ensures r.None? <==> sep !in s
    ensures r.Some? ==> sep !in r.value.0 && s == r.value.0 + [sep] + r.value.1
  {
    if s == [] then None
    else if s[0] == sep then Some(([], s[1..]))
    else match SplitOnce(s[1..], sep)
      case None => None
      case Some((before, after)) => Some(([s[0]] + before, after))
  }

  lemma {:induction false} SplitOnceOfPrefixed(p: Text, s: Text, sep: byte)
    requires sep !in p
    ensures SplitOnce(p + [sep] + s, sep) == Some((p, s))
  {
    if p == [] {
      assert (p + [sep] + s)[1..] == s;
    } else {
      assert (p + [sep] + s)[1..] == p[1..] + [sep] + s;
      SplitOnceOfPrefixed(p[1..], s, sep);
      assert p == [p[0]] + p[1..];
    }
  }

  /** The text before the first separator is `p` exactly when the text begins with `p` and a separator. */
  lemma {:induction false} SplitOnceIff(p: Text, s: Text, sep: byte)
    requires sep !in p
    ensures p + [sep] <= s <==> SplitOnce(s, sep).Some? && SplitOnce(s, sep).value.0 == p
  {
    if s != [] && s[0] != sep && p != [] {
      SplitOnceIff(p[1..], s[1..], sep);
      assert p == [p[0]] + p[1..] && s == [s[0]] + s[1..];
    }
  }
}
