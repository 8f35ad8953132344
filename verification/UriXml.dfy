/** Percent-encoding for request signing, and the flat scan of a listing's XML. */
module UriXml {
  import opened Seqs

  // ---- uri_encode ----

  const PERCENT: byte := 37
  const SLASH: byte := 47

  /** Letters, digits, and `-`, `_`, `.`, `~`: the unreserved set of section 2.3 of RFC 3986. */
  predicate Unreserved(b: byte) {
    48 <= b <= 57 || 65 <= b <= 90 || 97 <= b <= 122 || b == 45 || b == 95 || b == 46 || b == 126
  }

  predicate Literal(b: byte, encodeSlash: bool) { Unreserved(b) || (b == SLASH && !encodeSlash) }

  function UpperHex(n: nat): byte
    requires n < 16
  {
    if n < 10 then (48 + n) as byte else (55 + n) as byte
  }

  function EncodeByte(b: byte, encodeSlash: bool): Bytes {
    if Literal(b, encodeSlash) then [b] else [PERCENT, UpperHex(b as nat / 16), UpperHex(b as nat % 16)]
  }

  function Encoded(s: Bytes, encodeSlash: bool): Bytes {
    if s == [] then [] else Encoded(Init(s), encodeSlash) + EncodeByte(Last(s), encodeSlash)
  }

  method UriEncode(s: Bytes, encodeSlash: bool) returns (out: Bytes)
    ensures out == Encoded(s, encodeSlash)
  {
    out := [];
    var i := 0;
    while i < |s|
      invariant 0 <= i <= |s|
      invariant out == Encoded(s[..i], encodeSlash)
    {
      var b := s[i];
      assert Init(s[..i + 1]) == s[..i];
      if Literal(b, encodeSlash) {
        out := out + [b];
      } else {
        out := out + [PERCENT] + [UpperHex(b as nat / 16), UpperHex(b as nat % 16)];
      }
      i := i + 1;
    }
    assert s[..i] == s;
  }

  /** Percent-decoding of section 2.1 of RFC 3986: a percent sign and two hex digits stand for one byte. */
  function PercentDecode(t: Bytes): Option<Bytes>
    decreases |t|
  {
    if t == [] then Some([])
    else if t[0] != PERCENT then
      match PercentDecode(t[1..]) case None => None case Some(r) => Some([t[0]] + r)
    else if |t| < 3 then None
    else match (HexValue(t[1]), HexValue(t[2]), PercentDecode(t[3..]))
      case (Some(h), Some(l), Some(r)) => Some([(16 * h + l) as byte] + r)
      case _ => None
  }

  lemma DecodeOneByte(b: byte, encodeSlash: bool, rest: Bytes)
    ensures PercentDecode(EncodeByte(b, encodeSlash) + rest) ==
      match PercentDecode(rest) case None => None case Some(r) => Some([b] + r)
  {
    var t := EncodeByte(b, encodeSlash) + rest;
    if Literal(b, encodeSlash) {
      assert t[1..] == rest;
    } else {
      assert t[3..] == rest;
      assert HexValue(t[1]) == Some(b as nat / 16) && HexValue(t[2]) == Some(b as nat % 16);
    }
  }

  lemma {:induction false} DecodeAfter(s: Bytes, encodeSlash: bool, rest: Bytes, r: Bytes)
    requires PercentDecode(rest) == Some(r)
    ensures PercentDecode(Encoded(s, encodeSlash) + rest) == Some(s + r)
  {
    hide PercentDecode, EncodeByte;
    if s == [] {
      assert Encoded(s, encodeSlash) + rest == rest && s + r == r;
    } else {
      var b := Last(s);
      DecodeOneByte(b, encodeSlash, rest);
      DecodeAfter(Init(s), encodeSlash, EncodeByte(b, encodeSlash) + rest, [b] + r);
      ConcatAssociates(Encoded(Init(s), encodeSlash), EncodeByte(b, encodeSlash), rest);
      ConcatAssociates(Init(s), [b], r);
      assert Init(s) + [b] == s;
    }
  }

  /** Percent-decoding undoes the encoding in both slash modes. */
  lemma DecodeUndoesEncode(s: Bytes, encodeSlash: bool)
    ensures PercentDecode(Encoded(s, encodeSlash)) == Some(s)
  {
    DecodeAfter(s, encodeSlash, [], []);
    assert Encoded(s, encodeSlash) + [] == Encoded(s, encodeSlash) && s + [] == s;
  }

  /** So different inputs are never signed as the same string. */
  lemma EncodeIsInjective(s: Bytes, t: Bytes, encodeSlash: bool)
    requires Encoded(s, encodeSlash) == Encoded(t, encodeSlash)
    ensures s == t
  {
    DecodeUndoesEncode(s, encodeSlash);
    DecodeUndoesEncode(t, encodeSlash);
  }

  /** The output consists of unreserved bytes and percent signs, and of slashes exactly when they are kept and present. */
  lemma {:induction false} EncodedAlphabet(s: Bytes, encodeSlash: bool)
    ensures forall b :: b in Encoded(s, encodeSlash) ==> Unreserved(b) || b == PERCENT || (b == SLASH && !encodeSlash)
    ensures SLASH in Encoded(s, encodeSlash) <==> SLASH in s && !encodeSlash
  {
    if s != [] {
      EncodedAlphabet(Init(s), encodeSlash);
      assert s == Init(s) + [Last(s)];
      var e := EncodeByte(Last(s), encodeSlash);
      forall b | b in e ensures Unreserved(b) || b == PERCENT || (b == SLASH && !encodeSlash) {
        if !Literal(Last(s), encodeSlash) { assert b == e[0] || b == e[1] || b == e[2]; }
      }
      assert SLASH in e <==> Last(s) == SLASH && !encodeSlash by {
        if !Literal(Last(s), encodeSlash) { assert e[0] != SLASH && e[1] != SLASH && e[2] != SLASH; }
      }
    }
  }

  const UPPER_HEX := "0123456789ABCDEF"

  /** The unreserved characters as section 2.3 of RFC 3986 lists them: ALPHA, DIGIT, "-", ".", "_" and "~". */
  predicate IsListed(c: char) {
    'A' <= c <= 'Z' || 'a' <= c <= 'z' || '0' <= c <= '9' || c in "-._~"
  }

  lemma UnreservedIsListed(b: byte)
    ensures Unreserved(b) <==> IsListed((b as int) as char)
  {
  }

  lemma {:induction false} EncodedConcat(s: Bytes, t: Bytes, encodeSlash: bool)
    ensures Encoded(s + t, encodeSlash) == Encoded(s, encodeSlash) + Encoded(t, encodeSlash)
  {
    if t == [] {
      assert s + t == s;
    } else {
      assert Init(s + t) == s + Init(t) && Last(s + t) == Last(t);
      EncodedConcat(s, Init(t), encodeSlash);
      ConcatAssociates(Encoded(s, encodeSlash), Encoded(Init(t), encodeSlash), EncodeByte(Last(t), encodeSlash));
    }
  }

  /** Byte by byte: a listed character, and a slash where it is kept, stays; any other byte is `%` and two uppercase hex digits. */
  lemma OneByteEncoded(b: byte, encodeSlash: bool)
    ensures var e := Encoded([b], encodeSlash);
      if IsListed((b as int) as char) || (b == 47 && !encodeSlash) then e == [b]
      else
        && |e| == 3 && e[0] == 37
        && e[1] as int == UPPER_HEX[b as int / 16] as int && e[2] as int == UPPER_HEX[b as int % 16] as int
  {
    UnreservedIsListed(b);
    assert Init([b]) == [] && Last([b]) == b;
    hide Unreserved;
    HexDigitsAreListed(b as int / 16);
    HexDigitsAreListed(b as int % 16);
  }

  lemma HexDigitsAreListed(n: nat)
    requires n < 16
    ensures UpperHex(n) as int == UPPER_HEX[n] as int
  {
  }

  // ---- xml_unescape ----

  /** The five predefined entities of section 4.6 of XML 1.0. */
  function EntityOf(c: char): string {
    match c
    case '&' => "&amp;"
    case '<' => "&lt;"
    case '>' => "&gt;"
    case '"' => "&quot;"
    case '\'' => "&apos;"
    case _ => [c]
  }

  function Escape(s: string): string {
    if s == [] then [] else EntityOf(s[0]) + Escape(s[1..])
  }

  /** The entity a text starts with, in the order they are tried: the character and the length consumed. */
  function LeadingEntity(s: string): Option<(char, nat)> {
    if "&amp;" <= s then Some(('&', 5))
    else if "&lt;" <= s then Some(('<', 4))
    else if "&gt;" <= s then Some(('>', 4))
    else if "&quot;" <= s then Some(('"', 6))
    else if "&apos;" <= s then Some(('\'', 6))
    else None
  }

  function Unescaped(s: string): string
    decreases |s|
  {
    if s == [] then []
    else match LeadingEntity(s)
      case Some((c, n)) => [c] + Unescaped(s[n..])
      case None => [s[0]] + Unescaped(s[1..])
  }

  lemma EntityStartsWithAmpersand(s: string)
    requires LeadingEntity(s).Some?
    ensures s[..1] == "&" && 0 < LeadingEntity(s).value.1 <= |s|
  {
    if "&amp;" <= s {} else if "&lt;" <= s {} else if "&gt;" <= s {} else if "&quot;" <= s {} else {}
  }

  lemma UnescapeFirst(s: string)
    requires s != []
    ensures var e := LeadingEntity(s);
      && (e.Some? ==> s[..1] == "&" && 0 < e.value.1 <= |s|)
      && Unescaped(s) == if e.Some? then [e.value.0] + Unescaped(s[e.value.1..]) else [s[0]] + Unescaped(s[1..])
  {
    hide LeadingEntity;
    if LeadingEntity(s).Some? { EntityStartsWithAmpersand(s); }
  }

  method XmlUnescape(s: string) returns (out: string)
    ensures out == Unescaped(s)
  {
    out := [];
    var rest := s;
    assert [] + Unescaped(s) == Unescaped(s);
    assert Unescaped([]) == [];
    hide Unescaped, LeadingEntity;
    while rest != []
      invariant out + Unescaped(rest) == Unescaped(s)
      decreases |rest|
    {
      UnescapeFirst(rest);
      if rest[0] == '&' {
        var e := LeadingEntity(rest);
        if e.Some? {
          AppendThenConcat(out, e.value.0, Unescaped(rest[e.value.1..]));
          out := out + [e.value.0];
          rest := rest[e.value.1..];
          continue;
        }
      }
      AppendThenConcat(out, rest[0], Unescaped(rest[1..]));
      out := out + [rest[0]];
      rest := rest[1..];
    }
    assert out + [] == out;
  }

  lemma EntityLeads(c: char, rest: string)
    ensures var t := EntityOf(c) + rest;
      && t != [] && t[|EntityOf(c)|..] == rest
      && LeadingEntity(t) == (if |EntityOf(c)| == 1 then None else Some((c, |EntityOf(c)|)))
      && (|EntityOf(c)| == 1 ==> t[0] == c)
  {
    var e := EntityOf(c);
    var t := e + rest;
    assert t[|e|..] == rest && e <= t;
    match c
    case '&' =>
    case '<' => assert t[1] == 'l';
    case '>' => assert t[1] == 'g';
    case '"' => assert t[1] == 'q';
    case '\'' => assert t[1] == 'a' && t[2] == 'p';
    case _ => assert t[0] == c;
  }

  lemma UnescapeOne(c: char, rest: string)
    ensures Unescaped(EntityOf(c) + rest) == [c] + Unescaped(rest)
  {
    hide LeadingEntity, EntityOf;
    EntityLeads(c, rest);
  }

  lemma {:induction false} UnescapeUndoesEscape(s: string)
    ensures Unescaped(Escape(s)) == s
  {
    if s != [] {
      hide Unescaped, EntityOf;
      UnescapeOne(s[0], Escape(s[1..]));
      UnescapeUndoesEscape(s[1..]);
      assert [s[0]] + s[1..] == s;
    } else {
      assert Unescaped([]) == [];
    }
  }

  /** Text without an ampersand is left as it is. */
  lemma {:induction false} PlainTextStays(s: string)
    requires '&' !in s
    ensures Unescaped(s) == s
  {
    if s != "" {
      UnescapeFirst(s);
      assert s[0] in s && forall c :: c in s[1..] ==> c in s;
      assert s[..1] != "&" by { assert s[..1][0] == s[0]; }
      PlainTextStays(s[1..]);
      assert [s[0]] + s[1..] == s;
    }
  }

  lemma {:induction false} EscapedHasNoMarkup(s: string)
    ensures '<' !in Escape(s)
  {
    if s != [] {
      EscapedHasNoMarkup(s[1..]);
      assert '<' !in EntityOf(s[0]);
    }
  }

  // ---- extract_xml_tag_values ----

  predicate At(s: string, pat: string, i: nat) {
    i + |pat| <= |s| && s[i..i + |pat|] == pat
  }

  /** Where the pattern first occurs. */
  function Find(s: string, pat: string): (at: Option<nat>)
    ensures at.Some? ==> at.value + |pat| <= |s|
  {
    if |s| < |pat| then None
    else if s[..|pat|] == pat then Some(0)
    else if s == [] then None
    else match Find(s[1..], pat) case None => None case Some(i) => Some(i + 1)
  }

  lemma AtTail(s: string, pat: string, i: nat)
    requires 0 < i && s != []
    ensures At(s, pat, i) <==> At(s[1..], pat, i - 1)
  {
    if i + |pat| <= |s| { assert s[i..i + |pat|] == s[1..][i - 1..i - 1 + |pat|]; }
  }

  /** `find` returns the first position at which the pattern stands, if there is any. */
  lemma {:induction false} FindIsFirst(s: string, pat: string, j: nat)
    ensures Find(s, pat).Some? ==> At(s, pat, Find(s, pat).value) && (At(s, pat, j) ==> Find(s, pat).value <= j)
    ensures Find(s, pat).None? ==> !At(s, pat, j)
  {
    if |s| >= |pat| && s[..|pat|] != pat && s != [] {
      FindIsFirst(s[1..], pat, if j == 0 then 0 else j - 1);
      if j > 0 { AtTail(s, pat, j); }
      if Find(s, pat).Some? { AtTail(s, pat, Find(s, pat).value); }
    }
  }

  predicate Occurs(pat: string, s: string) { Find(s, pat).Some? }

  function OpenTag(tag: string): string { "<" + tag + ">" }

  function CloseTag(tag: string): string { "</" + tag + ">" }

  function Extract(xml: string, tag: string): seq<string>
    decreases |xml|
  {
    match Find(xml, OpenTag(tag))
    case None => []
    case Some(start) =>
      var after := xml[start + |OpenTag(tag)|..];
      match Find(after, CloseTag(tag))
      case None => []
      case Some(end) => [Unescaped(after[..end])] + Extract(after[end + |CloseTag(tag)|..], tag)
  }

  lemma ExtractNone(xml: string, tag: string)
    requires match Find(xml, OpenTag(tag))
      case None => true
      case Some(start) => Find(xml[start + |OpenTag(tag)|..], CloseTag(tag)).None?
    ensures Extract(xml, tag) == []
  {
    hide Find, OpenTag, CloseTag, Unescaped;
  }

  lemma ExtractOne(xml: string, tag: string, start: nat, end: nat)
    requires Find(xml, OpenTag(tag)) == Some(start)
    requires Find(xml[start + |OpenTag(tag)|..], CloseTag(tag)) == Some(end)
    ensures var after := xml[start + |OpenTag(tag)|..];
      Extract(xml, tag) == [Unescaped(after[..end])] + Extract(after[end + |CloseTag(tag)|..], tag)
  {
    hide Find, Unescaped;
  }

  method ExtractXmlTagValues(xml: string, tag: string) returns (out: seq<string>)
    ensures out == Extract(xml, tag)
  {
    hide Extract, Find, Unescaped;
    var open, close := OpenTag(tag), CloseTag(tag);
    out := [];
    var rest := xml;
    while true
      invariant out + Extract(rest, tag) == Extract(xml, tag)
      decreases |rest|
    {
      var start := Find(rest, open);
      if start.None? { ExtractNone(rest, tag); return; }
      var after := rest[start.value + |open|..];
      var end := Find(after, close);
      if end.None? { ExtractNone(rest, tag); return; }
      ExtractOne(rest, tag, start.value, end.value);
      var value := XmlUnescape(after[..end.value]);
      rest := after[end.value + |close|..];
      AppendThenConcat(out, value, Extract(rest, tag));
      out := out + [value];
    }
  }

  /** A listing: filler, one element per key, and a trailer. */
  function Listing(tag: string, fillers: seq<string>, keys: seq<string>, trailer: string): string
    requires |fillers| == |keys|
  {
    if keys == [] then trailer
    else fillers[0] + (OpenTag(tag) + (Escape(keys[0]) + (CloseTag(tag) + Listing(tag, fillers[1..], keys[1..], trailer))))
  }

  lemma NotBefore(a: string, pat: string, b: string, i: nat)
    requires pat != [] && pat[0] !in pat[1..] && !Occurs(pat, a) && i < |a|
    ensures !At(a + (pat + b), pat, i)
  {
    var s := a + (pat + b);
    if i + |pat| <= |a| {
      FindIsFirst(a, pat, i);
      assert s[i..i + |pat|] == a[i..i + |pat|];
    } else if i + |pat| <= |s| {
      var k := |a| - i;
      assert s[i..i + |pat|][k] == s[|a|] == pat[0];
      assert pat[k] == pat[1..][k - 1];
    }
  }

  /** A pattern whose first character does not recur in it is first found right after text that does not contain it. */
  lemma FindAfter(a: string, pat: string, b: string)
    requires pat != [] && pat[0] !in pat[1..] && !Occurs(pat, a)
    ensures Find(a + (pat + b), pat) == Some(|a|)
  {
    var s := a + (pat + b);
    assert s[|a|..|a| + |pat|] == pat;
    FindIsFirst(s, pat, |a|);
    forall i: nat | i < |a| ensures !At(s, pat, i) { NotBefore(a, pat, b, i); }
  }

  lemma NotAtPlain(a: string, pat: string, i: nat)
    requires '<' !in a && pat != [] && pat[0] == '<'
    ensures !At(a, pat, i)
  {
    if i + |pat| <= |a| { assert a[i..i + |pat|][0] == a[i]; }
  }

  lemma NoMarkupNoTag(a: string, pat: string)
    requires '<' !in a && pat != [] && pat[0] == '<'
    ensures !Occurs(pat, a)
  {
    FindIsFirst(a, pat, 0);
    if Find(a, pat).Some? { NotAtPlain(a, pat, Find(a, pat).value); }
  }

  /** The scan of one element: filler, tag, escaped key, closing tag, and whatever follows. */
  lemma ExtractElement(tag: string, filler: string, key: string, rest: string)
    requires '<' !in tag && !Occurs(OpenTag(tag), filler)
    ensures Extract(filler + (OpenTag(tag) + (Escape(key) + (CloseTag(tag) + rest))), tag) == [key] + Extract(rest, tag)
  {
    hide Find, Unescaped, Escape, Extract;
    var open, close := OpenTag(tag), CloseTag(tag);
    var value := Escape(key);
    var after := value + (close + rest);
    var xml := filler + (open + after);
    assert open[1..] == tag + ">" && close[1..] == "/" + tag + ">";
    FindAfter(filler, open, after);
    assert xml[|filler| + |open|..] == after;
    EscapedHasNoMarkup(key);
    NoMarkupNoTag(value, close);
    FindAfter(value, close, rest);
    assert after[..|value|] == value && after[|value| + |close|..] == rest;
    UnescapeUndoesEscape(key);
    ExtractOne(xml, tag, |filler|, |value|);
  }

  /** From any listing whose other text never contains the opening tag, exactly the keys come back, in order. */
  lemma {:induction false} ExtractRecoversKeys(tag: string, fillers: seq<string>, keys: seq<string>, trailer: string)
    requires |fillers| == |keys| && '<' !in tag
    requires forall i :: 0 <= i < |fillers| ==> !Occurs(OpenTag(tag), fillers[i])
    requires !Occurs(OpenTag(tag), trailer)
    ensures Extract(Listing(tag, fillers, keys, trailer), tag) == keys
    decreases |keys|
  {
    hide Occurs, Extract;
    if keys == [] {
      assert Find(trailer, OpenTag(tag)).None? by { TrailerHasNone(tag, trailer); }
      ExtractNone(trailer, tag);
    } else {
      ExtractElement(tag, fillers[0], keys[0], Listing(tag, fillers[1..], keys[1..], trailer));
      ExtractRecoversKeys(tag, fillers[1..], keys[1..], trailer);
      assert [keys[0]] + keys[1..] == keys;
    }
  }

  lemma TrailerHasNone(tag: string, trailer: string)
    requires !Occurs(OpenTag(tag), trailer)
    ensures Find(trailer, OpenTag(tag)).None?
  {
  }
}
