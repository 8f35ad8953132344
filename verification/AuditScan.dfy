/** The audit file as bytes: reading it all, and reading one page backward in bounded chunks. */
module AuditScan {
  import opened Seqs
  import opened AuditModel

  /** What `trim_ascii` removes. */
  predicate AsciiSpace(b: byte) { b == 9 || b == 10 || b == 12 || b == 13 || b == 32 }

  /** What `trim` removes, on ASCII text: also the vertical tab. */
  predicate TextSpace(b: byte) { AsciiSpace(b) || b == VT }

  predicate AsciiBlank(l: Bytes) { forall i :: 0 <= i < |l| ==> AsciiSpace(l[i]) }

  predicate TextBlank(l: Bytes) { forall i :: 0 <= i < |l| ==> TextSpace(l[i]) }

  /** The serializer of one entry; the bytes of a line carry no newline and start with a brace, and whitespace is no entry. */
  datatype LineCodec = LineCodec(encode: AuditEntry -> Bytes, decode: Bytes -> Option<AuditEntry>)
  {
    ghost predicate Valid() {
      && (forall e :: decode(encode(e)) == Some(e))
      && (forall e :: NL !in encode(e) && |encode(e)| > 0 && encode(e)[0] == BRACE)
      && (forall l :: decode(l + [CR]) == decode(l))
      && (forall l :: TextBlank(l) ==> decode(l) == None)
    }
  }

  const BRACE: byte := 123
  const VT: byte := 11

  datatype ReadError = ParseError

  /** A line of blanks and tabs, with a carriage return or not, is blank to both readers; one with a visible character to neither. */
  lemma BlankLines(l: Bytes)
    ensures (forall b :: b in l ==> b == 32 || b == 9 || b == 13) ==> AsciiBlank(l) && TextBlank(l)
    ensures (exists b :: b in l && 33 <= b <= 126) ==> !AsciiBlank(l) && !TextBlank(l)
  {
    forall i | 0 <= i < |l| ensures l[i] in l {}
    if b :| b in l && 33 <= b <= 126 {
      var i :| 0 <= i < |l| && l[i] == b;
      assert !AsciiSpace(l[i]) && !TextSpace(l[i]);
    }
  }

  /** The pieces between newlines: always one more piece than there are newlines. */
  function Split(s: Bytes): (r: seq<Bytes>)
    ensures |r| > 0
  {
    if s == [] then [[]]
    else
      var rest := Split(s[1..]);
      if s[0] == NL then [[]] + rest else [[s[0]] + rest[0]] + rest[1..]
  }

  lemma {:induction false} SplitAtNewline(a: Bytes, b: Bytes)
    ensures Split(a + [NL] + b) == Split(a) + Split(b)
  {
    if a == [] {
      assert ([] + [NL] + b)[1..] == b;
    } else {
      assert (a + [NL] + b)[1..] == a[1..] + [NL] + b;
      SplitAtNewline(a[1..], b);
    }
  }

  lemma {:induction false} SplitOneLine(s: Bytes)
    requires NL !in s
    ensures Split(s) == [s]
  {
    if s != [] {
      SplitOneLine(s[1..]);
      assert [s[0]] + s[1..] == s;
    }
  }

  lemma SplitFirstLine(s: Bytes, start: nat, i: nat)
    requires start <= i < |s| && s[i] == NL && NL !in s[start..i]
    ensures Split(s[start..]) == [s[start..i]] + Split(s[i + 1..])
  {
    assert s[start..] == s[start..i] + [NL] + s[i + 1..];
    SplitAtNewline(s[start..i], s[i + 1..]);
    SplitOneLine(s[start..i]);
  }

  // ---- reading everything ----

  function StripCr(l: Bytes): Bytes {
    if l != [] && Last(l) == CR then Init(l) else l
  }

  /** `str::lines`: no piece after a final newline, and a carriage return before a newline dropped. */
  function TextLines(s: Bytes): seq<Bytes> {
    var pieces := Split(s);
    Map(StripCr, Init(pieces)) + if Last(pieces) == [] then [] else [Last(pieces)]
  }

  function ParseAll(codec: LineCodec, lines: seq<Bytes>): Result<seq<AuditEntry>, ReadError> {
    if lines == [] then Ok([])
    else if TextBlank(lines[0]) then ParseAll(codec, lines[1..])
    else match codec.decode(lines[0])
      case None => Err(ParseError)
      case Some(e) =>
        match ParseAll(codec, lines[1..])
        case Err(x) => Err(x)
        case Ok(es) => Ok([e] + es)
  }

  /** A missing file reads as an empty log. */
  function ReadAll(codec: LineCodec, file: Option<Bytes>): Result<seq<AuditEntry>, ReadError> {
    if file.None? then Ok([]) else ParseAll(codec, TextLines(file.value))
  }

  // ---- walking lines from the last to the first ----

  datatype Query = Query(codec: LineCodec, filter: AuditFilter, beforeSeq: Option<nat>, limit: nat)

  datatype Walk = More(collected: seq<AuditEntry>) | Done(page: AuditPage) | Bad

  function Visit(q: Query, line: Bytes, collected: seq<AuditEntry>): Walk {
    if AsciiBlank(line) then More(collected)
    else match q.codec.decode(line)
      case None => Bad
      case Some(e) =>
        if !Selected(q.filter, q.beforeSeq, e) then More(collected)
        else
          var c := collected + [e];
          if |c| > q.limit then Done(CutPage(c, q.limit)) else More(c)
  }

  function WalkBack(q: Query, lines: seq<Bytes>, collected: seq<AuditEntry>): Walk {
    if lines == [] then More(collected)
    else match Visit(q, Last(lines), collected)
      case More(c) => WalkBack(q, Init(lines), c)
      case Done(p) => Done(p)
      case Bad => Bad
  }

  function PageOf(w: Walk): Result<AuditPage, ReadError> {
    match w
    case More(c) => Ok(AuditPage(c, None))
    case Done(p) => Ok(p)
    case Bad => Err(ParseError)
  }

  lemma {:induction false} WalkBackConcat(q: Query, a: seq<Bytes>, b: seq<Bytes>, c: seq<AuditEntry>)
    ensures WalkBack(q, a + b, c) ==
      match WalkBack(q, b, c) case More(d) => WalkBack(q, a, d) case Done(p) => Done(p) case Bad => Bad
  {
    if b == [] {
      assert a + b == a;
    } else {
      assert Init(a + b) == a + Init(b);
      match Visit(q, Last(b), c)
      case More(d) => WalkBackConcat(q, a, Init(b), d);
      case Done(_) =>
      case Bad =>
    }
  }

  /** The last, empty piece of a buffer is skipped like any blank line. */
  lemma WalkBackEmptyTail(q: Query, a: seq<Bytes>, c: seq<AuditEntry>)
    ensures WalkBack(q, a + [[]], c) == WalkBack(q, a, c)
  {
    assert Init(a + [[]]) == a;
  }

  lemma WalkBackNothing(q: Query, c: seq<AuditEntry>)
    ensures Split([]) == [[]]
    ensures WalkBack(q, [], c) == More(c) && WalkBack(q, Split([]), c) == More(c)
  {
    WalkBackEmptyTail(q, [], c);
    assert [] + [[]] == Split([]);
  }

  // ---- the backward chunked scan ----

  method FirstNewline(buf: Bytes) returns (at: Option<nat>)
    ensures at.None? ==> NL !in buf
    ensures at.Some? ==> at.value < |buf| && buf[at.value] == NL && NL !in buf[..at.value]
  {
    var i := 0;
    while i < |buf|
      invariant 0 <= i <= |buf|
      invariant NL !in buf[..i]
    {
      if buf[i] == NL { return Some(i); }
      i := i + 1;
    }
    return None;
  }

  /** Cut buf[from..] at its newlines; a non-empty remainder after the last one is a line too. */
  method CutLines(buf: Bytes, from: nat) returns (lines: seq<Bytes>)
    requires from <= |buf|
    ensures lines == Split(buf[from..]) || lines + [[]] == Split(buf[from..])
  {
    lines := [];
    var start, i := from, from;
    assert [] + Split(buf[from..]) == Split(buf[from..]);
    assert Split([]) == [[]];
    hide Split;
    while i < |buf|
      invariant from <= start <= i <= |buf|
      invariant NL !in buf[start..i]
      invariant Split(buf[from..]) == lines + Split(buf[start..])
    {
      if buf[i] == NL {
        SplitFirstLine(buf, start, i);
        AppendThenConcat(lines, buf[start..i], Split(buf[i + 1..]));
        lines := lines + [buf[start..i]];
        start := i + 1;
      }
      i := i + 1;
    }
    assert buf[start..i] == buf[start..];
    SplitOneLine(buf[start..]);
    if start < |buf| {
      lines := lines + [buf[start..]];
    }
  }

  /** Visit the lines of one buffer from the last to the first. */
  method VisitLines(q: Query, lines: seq<Bytes>, collected: seq<AuditEntry>) returns (w: Walk)
    ensures w == WalkBack(q, lines, collected)
  {
    w := More(collected);
    var i := |lines|;
    assert lines[..i] == lines;
    while i > 0
      invariant 0 <= i <= |lines|
      invariant w.More? && WalkBack(q, lines, collected) == WalkBack(q, lines[..i], w.collected)
    {
      assert Init(lines[..i]) == lines[..i - 1];
      w := Visit(q, lines[i - 1], w.collected);
      if !w.More? { return; }
      i := i - 1;
    }
  }

  /** Reading one more chunk moves its bytes from the unread part to the buffer. */
  lemma NextBuffer(s: Bytes, chunkStart: nat, pos: nat, carry: Bytes)
    requires chunkStart <= pos <= |s|
    ensures s[..pos] + carry == s[..chunkStart] + (s[chunkStart..pos] + carry)
  {
    assert s[..pos] == s[..chunkStart] + s[chunkStart..pos];
  }

  /** The walk over everything unread, cut at the buffer's first newline. */
  lemma WalkFromNewline(q: Query, unread: Bytes, buf: Bytes, at: nat, c: seq<AuditEntry>)
    requires at < |buf| && buf[at] == NL
    ensures WalkBack(q, Split(unread + buf), c) ==
      match WalkBack(q, Split(buf[at + 1..]), c)
      case More(d) => WalkBack(q, Split(unread + buf[..at]), d)
      case Done(p) => Done(p)
      case Bad => Bad
  {
    assert unread + buf == (unread + buf[..at]) + [NL] + buf[at + 1..];
    hide Split, WalkBack;
    SplitAtNewline(unread + buf[..at], buf[at + 1..]);
    WalkBackConcat(q, Split(unread + buf[..at]), Split(buf[at + 1..]), c);
  }

  /** Whatever the chunk size, the scan meets exactly the lines of the file, last one first. */
  method ScanReverse(q: Query, file: Option<Bytes>, chunkBytes: nat) returns (r: Result<AuditPage, ReadError>)
    requires chunkBytes >= 1
    ensures r == if file.None? then Ok(AuditPage([], None)) else PageOf(WalkBack(q, Split(file.value), []))
  {
    if file.None? { return Ok(AuditPage([], None)); }
    var s := file.value;
    var pos := |s|;
    var collected: seq<AuditEntry> := [];
    var carry: Bytes := [];
    assert s[..pos] + carry == s;
    hide WalkBack, Split, Visit;
    while pos > 0
      invariant 0 <= pos <= |s|
      invariant pos == 0 ==> carry == []
      invariant WalkBack(q, Split(s), []) == WalkBack(q, Split(s[..pos] + carry), collected)
    {
      var readSize := if chunkBytes <= pos then chunkBytes else pos;
      var chunkStart := pos - readSize;
      var buf := s[chunkStart..pos] + carry;
      NextBuffer(s, chunkStart, pos, carry);
      pos := chunkStart;
      var linesFrom := 0;
      if pos == 0 {
        assert s[..pos] + buf == buf == buf[0..];
        carry := [];
      } else {
        var at := FirstNewline(buf);
        if at.None? {
          carry := buf;
          continue;
        }
        WalkFromNewline(q, s[..pos], buf, at.value, collected);
        carry := buf[..at.value];
        linesFrom := at.value + 1;
      }
      var lines := CutLines(buf, linesFrom);
      WalkBackEmptyTail(q, lines, collected);
      var w := VisitLines(q, lines, collected);
      assert w == WalkBack(q, Split(buf[linesFrom..]), collected);
      match w {
        case Done(page) => return Ok(page);
        case Bad => return Err(ParseError);
        case More(c) => collected := c;
      }
      if pos == 0 {
        WalkBackNothing(q, collected);
        assert s[..pos] + carry == [];
      }
    }
    assert s[..pos] + carry == [];
    WalkBackNothing(q, collected);
    return Ok(AuditPage(collected, None));
  }
}
