/** The backward scan refines the default page, and walking cursors reads the log once. */
module AuditPages {
  import opened Seqs
  import opened AuditModel
  import opened AuditScan

  // ---- the scan against the default page ----

  lemma {:induction false} ParseAllConcat(codec: LineCodec, a: seq<Bytes>, b: seq<Bytes>)
    ensures ParseAll(codec, a + b) ==
      match ParseAll(codec, a)
      case Err(x) => Err(x)
      case Ok(ea) =>
        match ParseAll(codec, b)
        case Err(x) => Err(x)
        case Ok(eb) => Ok(ea + eb)
  {
    if a == [] {
      assert a + b == b;
      match ParseAll(codec, b) case Ok(eb) => assert [] + eb == eb; case Err(_) =>
    } else {
      assert (a + b)[1..] == a[1..] + b;
      ParseAllConcat(codec, a[1..], b);
      match (codec.decode(a[0]), ParseAll(codec, a[1..]), ParseAll(codec, b))
      case (Some(e), Ok(ea), Ok(eb)) => assert [e] + (ea + eb) == ([e] + ea) + eb;
      case _ =>
    }
  }

  /** Lines that `trim` empties but `trim_ascii` does not would be read differently by the two readers. */
  ghost predicate SameBlanks(lines: seq<Bytes>) {
    forall l :: l in lines ==> TextBlank(l) ==> AsciiBlank(l)
  }

  /** What the walk returns over lines that all parse, having already collected c. */
  function Expected(q: Query, es: seq<AuditEntry>, c: seq<AuditEntry>): Walk {
    var kept := c + Reverse(Select(q.filter, q.beforeSeq, es));
    if |kept| > q.limit then Done(CutPage(kept, q.limit)) else More(kept)
  }

  lemma SelectSnoc(q: Query, front: seq<AuditEntry>, e: AuditEntry)
    ensures Select(q.filter, q.beforeSeq, front + [e]) ==
      Select(q.filter, q.beforeSeq, front) + if Selected(q.filter, q.beforeSeq, e) then [e] else []
  {
    FilterConcat((x: AuditEntry) => Selected(q.filter, q.beforeSeq, x), front, [e]);
    assert [e][1..] == [];
  }

  /** The newest entry of a longer log comes first in its page. */
  lemma ReverseSnoc(c: seq<AuditEntry>, s: seq<AuditEntry>, e: AuditEntry)
    ensures c + Reverse(s + [e]) == (c + [e]) + Reverse(s)
  {
    ReverseConcat(s, [e]);
    assert Reverse([e]) == [e];
    AppendThenConcat(c, e, Reverse(s));
  }

  lemma CutPageOfLonger(x: seq<AuditEntry>, y: seq<AuditEntry>, limit: nat)
    requires |x| > limit
    ensures CutPage(x + y, limit) == CutPage(x, limit)
  {
    assert Take(x + y, limit) == Take(x, limit);
  }

  lemma ExpectedStep(q: Query, front: seq<AuditEntry>, e: AuditEntry, c: seq<AuditEntry>)
    requires |c| <= q.limit
    ensures Expected(q, front + [e], c) ==
      if !Selected(q.filter, q.beforeSeq, e) then Expected(q, front, c)
      else if |c| == q.limit then Done(CutPage(c + [e], q.limit))
      else Expected(q, front, c + [e])
  {
    hide Select, Selected, CutPage, Reverse;
    SelectSnoc(q, front, e);
    var sf := Select(q.filter, q.beforeSeq, front);
    if Selected(q.filter, q.beforeSeq, e) {
      ReverseSnoc(c, sf, e);
      if |c| == q.limit {
        CutPageOfLonger(c + [e], Reverse(sf), q.limit);
      }
    } else {
      assert sf + [] == sf;
    }
  }

  lemma {:induction false} WalkOfParsed(q: Query, lines: seq<Bytes>, es: seq<AuditEntry>, c: seq<AuditEntry>)
    requires |c| <= q.limit && SameBlanks(lines)
    requires ParseAll(q.codec, lines) == Ok(es)
    ensures WalkBack(q, lines, c) == Expected(q, es, c)
  {
    if lines == [] {
      assert c + Reverse<AuditEntry>([]) == c;
    } else {
      var line, front := Last(lines), Init(lines);
      assert lines == front + [line];
      ParseAllConcat(q.codec, front, [line]);
      assert [line][1..] == [];
      var ef := ParseAll(q.codec, front).value;
      if AsciiBlank(line) {
        assert ef + [] == ef;
        WalkOfParsed(q, front, es, c);
      } else {
        var e := q.codec.decode(line).value;
        assert es == ef + [e];
        ExpectedStep(q, ef, e, c);
        if !Selected(q.filter, q.beforeSeq, e) {
          WalkOfParsed(q, front, ef, c);
        } else if |c| < q.limit {
          WalkOfParsed(q, front, ef, c + [e]);
        }
      }
    }
  }

  lemma {:induction false} ParseIgnoresCr(codec: LineCodec, lines: seq<Bytes>)
    requires codec.Valid()
    ensures ParseAll(codec, Map(StripCr, lines)) == ParseAll(codec, lines)
  {
    if lines != [] {
      ParseIgnoresCr(codec, lines[1..]);
      var l := lines[0];
      assert Map(StripCr, lines)[1..] == Map(StripCr, lines[1..]);
      if l != [] && Last(l) == CR {
        assert l == Init(l) + [CR];
      }
    }
  }

  lemma ParseTextLines(codec: LineCodec, s: Bytes)
    requires codec.Valid()
    ensures ParseAll(codec, TextLines(s)) == ParseAll(codec, Split(s))
  {
    var p := Split(s);
    assert p == Init(p) + [Last(p)];
    ParseIgnoresCr(codec, Init(p));
    ParseAllConcat(codec, Init(p), [Last(p)]);
    ParseAllConcat(codec, Map(StripCr, Init(p)), [Last(p)]);
    if Last(p) == [] {
      assert [Last(p)][1..] == [];
      assert TextLines(s) == Map(StripCr, Init(p));
      match ParseAll(codec, Init(p)) case Ok(es) => assert es + [] == es; case Err(_) =>
    }
  }

  /** On any readable ascending log file the backward scan returns the default page. */
  lemma ScanIsDefaultPage(q: Query, s: Bytes, es: seq<AuditEntry>)
    requires q.codec.Valid() && SameBlanks(Split(s))
    requires ReadAll(q.codec, Some(s)) == Ok(es) && Ascending(es)
    ensures PageOf(WalkBack(q, Split(s), [])) == Ok(DefaultPage(es, q.filter, q.beforeSeq, q.limit))
  {
    ParseTextLines(q.codec, s);
    WalkOfParsed(q, Split(s), es, []);
    DefaultPageOfAscending(es, q.filter, q.beforeSeq, q.limit);
    var kept := Reverse(Select(q.filter, q.beforeSeq, es));
    assert [] + kept == kept;
    assert |kept| <= q.limit ==> Take(kept, q.limit) == kept;
  }

  /** A line that only the read-everything reader takes for blank. */
  predicate Disputed(l: Bytes) { TextBlank(l) && !AsciiBlank(l) }

  /** Where the lines behind the last disputed one start; 0 if there is none. */
  function BehindDisputed(lines: seq<Bytes>): (k: nat)
    ensures k <= |lines|
    ensures k > 0 ==> Disputed(lines[k - 1])
    ensures forall i :: k <= i < |lines| ==> !Disputed(lines[i])
  {
    if lines == [] || Disputed(Last(lines)) then |lines|
    else
      var k := BehindDisputed(Init(lines));
      assert k > 0 ==> Init(lines)[k - 1] == lines[k - 1];
      assert forall i :: k <= i < |lines| - 1 ==> Init(lines)[i] == lines[i];
      k
  }

  lemma BehindDisputedIsSame(lines: seq<Bytes>)
    ensures SameBlanks(lines[BehindDisputed(lines)..])
    ensures SameBlanks(lines) <==> BehindDisputed(lines) == 0
  {
    var k := BehindDisputed(lines);
    hide TextBlank, AsciiBlank;
    forall l | l in lines[k..] ensures !Disputed(l) {
      var i :| k <= i < |lines| && lines[i] == l;
    }
    if k > 0 { assert lines[k - 1] in lines; } else { assert lines[0..] == lines; }
  }

  /** With a disputed line the scan still returns the default page exactly if the lines behind it overfill the page. */
  lemma DisputedLineHidden(q: Query, below: seq<Bytes>, vt: Bytes, above: seq<Bytes>, eb: seq<AuditEntry>, ea: seq<AuditEntry>)
    requires q.codec.Valid() && Disputed(vt) && SameBlanks(above) && Ascending(eb + ea)
    requires ParseAll(q.codec, below) == Ok(eb) && ParseAll(q.codec, above) == Ok(ea)
    ensures PageOf(WalkBack(q, below + [vt] + above, [])) == Ok(DefaultPage(eb + ea, q.filter, q.beforeSeq, q.limit))
      <==> |Select(q.filter, q.beforeSeq, ea)| > q.limit
  {
    var sb, sa := Select(q.filter, q.beforeSeq, eb), Select(q.filter, q.beforeSeq, ea);
    WalkBackConcat(q, below + [vt], above, []);
    WalkOfParsed(q, above, ea, []);
    assert [] + Reverse(sa) == Reverse(sa);
    if |sa| > q.limit {
      DefaultPageOfAscending(eb + ea, q.filter, q.beforeSeq, q.limit);
      FilterConcat((x: AuditEntry) => Selected(q.filter, q.beforeSeq, x), eb, ea);
      ReverseConcat(sb, sa);
      CutPageOfLonger(Reverse(sa), Reverse(sb), q.limit);
    } else {
      assert Last(below + [vt]) == vt;
    }
  }

  /**
   * The exact condition, for every readable ascending file: the scan returns the default page if and only
   * if no line is disputed or the matches behind the last disputed line overfill the page.
   */
  lemma ScanIsDefaultPageIff(q: Query, s: Bytes, es: seq<AuditEntry>)
    requires q.codec.Valid() && ReadAll(q.codec, Some(s)) == Ok(es) && Ascending(es)
    ensures var behind := ParseAll(q.codec, Split(s)[BehindDisputed(Split(s))..]);
      && behind.Ok?
      && (PageOf(WalkBack(q, Split(s), [])) == Ok(DefaultPage(es, q.filter, q.beforeSeq, q.limit))
          <==> SameBlanks(Split(s)) || |Select(q.filter, q.beforeSeq, behind.value)| > q.limit)
  {
    ParseTextLines(q.codec, s);
    if SameBlanks(Split(s)) { ScanIsDefaultPage(q, s, es); }
    assert ParseAll(q.codec, Split(s)) == Ok(es);
    hide *;
    WalkIsDefaultPageIff(q, Split(s), es);
  }

  lemma WalkIsDefaultPageIff(q: Query, lines: seq<Bytes>, es: seq<AuditEntry>)
    requires q.codec.Valid() && ParseAll(q.codec, lines) == Ok(es) && Ascending(es)
    requires SameBlanks(lines) ==>
      PageOf(WalkBack(q, lines, [])) == Ok(DefaultPage(es, q.filter, q.beforeSeq, q.limit))
    ensures var behind := ParseAll(q.codec, lines[BehindDisputed(lines)..]);
      && behind.Ok?
      && (PageOf(WalkBack(q, lines, [])) == Ok(DefaultPage(es, q.filter, q.beforeSeq, q.limit))
          <==> SameBlanks(lines) || |Select(q.filter, q.beforeSeq, behind.value)| > q.limit)
  {
    BehindDisputedIsSame(lines);
    hide *;
    var k := BehindDisputed(lines);
    if k == 0 {
      assert lines[0..] == lines;
    } else {
      DisputedScan(q, lines, k, es);
    }
  }

  lemma DisputedScan(q: Query, lines: seq<Bytes>, k: nat, es: seq<AuditEntry>)
    requires q.codec.Valid() && ParseAll(q.codec, lines) == Ok(es) && Ascending(es)
    requires 0 < k <= |lines| && Disputed(lines[k - 1]) && SameBlanks(lines[k..])
    ensures var behind := ParseAll(q.codec, lines[k..]);
      && behind.Ok?
      && (PageOf(WalkBack(q, lines, [])) == Ok(DefaultPage(es, q.filter, q.beforeSeq, q.limit))
          <==> |Select(q.filter, q.beforeSeq, behind.value)| > q.limit)
  {
    var below, vt, above := lines[..k - 1], lines[k - 1], lines[k..];
    assert lines == below + [vt] + above;
    hide ParseAll, WalkBack, PageOf, Select, DefaultPage, SameBlanks, Disputed;
    ParseAroundDisputed(q.codec, below, vt, above, es);
    DisputedLineHidden(q, below, vt, above, ParseAll(q.codec, below).value, ParseAll(q.codec, above).value);
  }

  lemma ParseAroundDisputed(codec: LineCodec, below: seq<Bytes>, vt: Bytes, above: seq<Bytes>, es: seq<AuditEntry>)
    requires Disputed(vt) && ParseAll(codec, below + [vt] + above) == Ok(es)
    ensures ParseAll(codec, below).Ok? && ParseAll(codec, above).Ok?
    ensures es == ParseAll(codec, below).value + ParseAll(codec, above).value
  {
    assert [vt][1..] == [];
    assert ParseAll(codec, [vt]) == Ok([]);
    hide *;
    ParseAllConcat(codec, below + [vt], above);
    ParseAllConcat(codec, below, [vt]);
    var eb := ParseAll(codec, below);
    if eb.Ok? { assert eb.value + [] == eb.value; }
  }

  /** The shortest such file, a vertical tab and a newline: an empty log to one reader, corrupt to the other. */
  lemma VerticalTabFile(q: Query)
    requires q.codec.Valid()
    ensures ReadAll(q.codec, Some([VT, NL])) == Ok([])
    ensures PageOf(WalkBack(q, Split([VT, NL]), [])) == Err(ParseError)
  {
    assert [VT, NL] == [VT] + [NL] + [];
    SplitAtNewline([VT], []);
    SplitOneLine([VT]);
    assert Split([VT, NL]) == [[VT], []];
    ParseTextLines(q.codec, [VT, NL]);
    assert ParseAll(q.codec, [[VT], []]) == Ok([]) by { assert [[VT], []][1..] == [[]]; }
    assert Init([[VT], []]) == [[VT]] && Last([[VT], []]) == [];
    assert !AsciiBlank([VT]) by { assert !AsciiSpace([VT][0]); }
  }

  /** A line that does not parse is reported exactly when the lines above it do not fill the page. */
  lemma BadLineIsReportedIffReached(q: Query, below: seq<Bytes>, bad: Bytes, above: seq<Bytes>, es: seq<AuditEntry>)
    requires SameBlanks(above) && ParseAll(q.codec, above) == Ok(es)
    requires !AsciiBlank(bad) && q.codec.decode(bad) == None
    ensures PageOf(WalkBack(q, below + [bad] + above, [])).Err? <==>
      |Select(q.filter, q.beforeSeq, es)| <= q.limit
  {
    WalkBackConcat(q, below + [bad], above, []);
    WalkOfParsed(q, above, es, []);
    assert Last(below + [bad]) == bad;
  }

  // ---- files written by appends ----

  function Render(codec: LineCodec, es: seq<AuditEntry>): Bytes {
    if es == [] then [] else Render(codec, Init(es)) + codec.encode(Last(es)) + [NL]
  }

  lemma {:induction false} RenderReadsBack(codec: LineCodec, es: seq<AuditEntry>)
    requires codec.Valid()
    ensures ReadAll(codec, Some(Render(codec, es))) == Ok(es)
    ensures SameBlanks(Split(Render(codec, es)))
  {
    RenderSplits(codec, es);
    ParseTextLines(codec, Render(codec, es));
    ParseEncoded(codec, es);
    ParseAllConcat(codec, Map(codec.encode, es), [[]]);
    assert ParseAll(codec, [[]]) == Ok([]);
    assert es + [] == es;
    forall l | l in Split(Render(codec, es)) ensures TextBlank(l) ==> AsciiBlank(l) {
      if l in Map(codec.encode, es) {
        var i :| 0 <= i < |es| && l == codec.encode(es[i]);
        assert !TextSpace(l[0]);
      }
    }
  }

  lemma {:induction false} RenderSplits(codec: LineCodec, es: seq<AuditEntry>)
    requires codec.Valid()
    ensures Split(Render(codec, es)) == Map(codec.encode, es) + [[]]
  {
    if es != [] {
      RenderSplits(codec, Init(es));
      var a, l := Render(codec, Init(es)), codec.encode(Last(es));
      assert Split([]) == [[]];
      hide Split, Map;
      RenderPrefixSplits(a, l, Map(codec.encode, Init(es)));
      assert a + l + [NL] + [] == a + l + [NL];
      SplitAtNewline(a + l, []);
      MapSnoc(codec.encode, es);
    }
  }

  /** Appending a newline-free line to a text that ends in a newline adds one piece. */
  lemma {:induction false} RenderPrefixSplits(a: Bytes, l: Bytes, pieces: seq<Bytes>)
    requires Split(a) == pieces + [[]] && NL !in l
    ensures Split(a + l) == pieces + [l]
  {
    if a == [] {
      assert a + l == l;
      assert |Split(a)| == 1;
      SplitOneLine(l);
    } else {
      assert (a + l)[1..] == a[1..] + l;
      var rest := Split(a[1..]);
      if a[0] == NL {
        assert Split(a)[1..] == rest;
        RenderPrefixSplits(a[1..], l, pieces[1..]);
      } else {
        assert Split(a)[0] != [];
        assert pieces != [];
        var fewer := [pieces[0][1..]] + pieces[1..];
        assert rest[1..] == Split(a)[1..] == pieces[1..] + [[]];
        assert rest == [rest[0]] + rest[1..];
        assert rest == fewer + [[]];
        RenderPrefixSplits(a[1..], l, fewer);
      }
    }
  }

  lemma {:induction false} ParseEncoded(codec: LineCodec, es: seq<AuditEntry>)
    requires codec.Valid()
    ensures ParseAll(codec, Map(codec.encode, es)) == Ok(es)
  {
    if es != [] {
      ParseEncoded(codec, es[1..]);
      var l := codec.encode(es[0]);
      assert !TextSpace(l[0]);
      assert Map(codec.encode, es)[1..] == Map(codec.encode, es[1..]);
      assert [es[0]] + es[1..] == es;
    }
  }

  // ---- walking the cursors ----

  /** The `before_seq` of page k: absent for the first page, then the previous page's cursor. */
  function CursorInto(pages: seq<AuditPage>, k: nat): Option<nat>
    requires k < |pages|
  {
    if k == 0 then None else pages[k - 1].nextCursor
  }

  /** Page k is read from logs[k], which extends logs[k-1], continuing from the previous cursor. */
  ghost predicate CursorWalk(logs: seq<seq<AuditEntry>>, pages: seq<AuditPage>, filter: AuditFilter, limit: nat) {
    && |pages| == |logs| > 0
    && (forall k :: 0 <= k < |logs| ==> Ascending(logs[k]) && logs[0] <= logs[k])
    && (forall k :: 0 <= k < |pages| - 1 ==> pages[k].nextCursor.Some?)
    && (forall k :: 0 <= k < |pages| ==>
        pages[k] == DefaultPage(logs[k], filter, CursorInto(pages, k), limit))
  }

  function PageEntries(pages: seq<AuditPage>): seq<AuditEntry> {
    if pages == [] then [] else PageEntries(Init(pages)) + Last(pages).entries
  }

  /** Below an entry of an ascending list lies exactly the part before it. */
  lemma {:induction false} SelectBelow(filter: AuditFilter, es: seq<AuditEntry>, m: nat)
    requires Ascending(es) && m < |Select(filter, None, es)|
    ensures Select(filter, Some(Select(filter, None, es)[m].seqNo), es) == Select(filter, None, es)[..m]
  {
    SelectAscending(filter, None, es);
    var b := Select(filter, None, es)[m].seqNo;
    var e, rest := es[0], es[1..];
    FilterMembers(x => Selected(filter, None, x), rest);
    if Selected(filter, None, e) {
      assert Select(filter, None, es) == [e] + Select(filter, None, rest);
      if m > 0 {
        SelectBelow(filter, rest, m - 1);
        assert Select(filter, None, es)[0] == e;
      } else {
        forall x | x in rest ensures !Selected(filter, Some(b), x) {
          var k :| 0 <= k < |rest| && rest[k] == x;
          assert es[k + 1] == x;
        }
        FilterNone((x: AuditEntry) => Selected(filter, Some(b), x), rest);
      }
    } else {
      assert Select(filter, None, es) == Select(filter, None, rest);
      SelectBelow(filter, rest, m);
    }
  }

  /** Entries appended after the first page lie above every cursor into it. */
  lemma SelectIgnoresAppends(filter: AuditFilter, a: seq<AuditEntry>, b: seq<AuditEntry>, e: AuditEntry)
    requires Ascending(b) && a <= b && e in a
    ensures Select(filter, Some(e.seqNo), b) == Select(filter, Some(e.seqNo), a)
  {
    var tail := b[|a|..];
    assert b == a + tail;
    var p := (x: AuditEntry) => Selected(filter, Some(e.seqNo), x);
    FilterConcat(p, a, tail);
    var i :| 0 <= i < |a| && a[i] == e;
    forall x | x in tail ensures !p(x) {
      var k :| 0 <= k < |tail| && tail[k] == x;
      assert b[|a| + k] == x && b[i] == e;
    }
    FilterNone(p, tail);
  }

  /** Where page k starts: k * limit. */
  function Offset(k: nat, limit: nat): nat {
    if k == 0 then 0 else Offset(k - 1, limit) + limit
  }

  lemma {:induction false} OffsetGrows(k: nat, limit: nat)
    requires limit >= 1
    ensures Offset(k, limit) >= k
  {
    if k > 0 { OffsetGrows(k - 1, limit); }
  }

  /** Page k is cut from d at offset k * limit. */
  ghost predicate IsSlice(d: seq<AuditEntry>, pages: seq<AuditPage>, limit: nat, k: nat)
    requires k < |pages|
  {
    Offset(k, limit) <= |d| && pages[k] == CutPage(d[Offset(k, limit)..], limit)
  }

  /** The candidates below the at-th newest match of `first`, read from any later log. */
  lemma CandidatesBelow(filter: AuditFilter, first: seq<AuditEntry>, later: seq<AuditEntry>, at: nat, limit: nat)
    requires Ascending(first) && Ascending(later) && first <= later
    requires 0 < at <= |Select(filter, None, first)|
    ensures var d := Reverse(Select(filter, None, first));
      DefaultPage(later, filter, Some(d[at - 1].seqNo), limit) == CutPage(d[at..], limit)
  {
    var a := Select(filter, None, first);
    var d := Reverse(a);
    var e := d[at - 1];
    var m := |a| - at;
    assert a[m] == e;
    FilterMembers(x => Selected(filter, None, x), first);
    assert e in a;
    SelectIgnoresAppends(filter, first, later, e);
    SelectBelow(filter, first, m);
    DefaultPageOfAscending(later, filter, Some(e.seqNo), limit);
    assert Reverse(a[..m]) == d[at..];
  }

  /** The cursor of a full page is the number of its last entry, right before the next page's offset. */
  lemma CursorIsBoundary(d: seq<AuditEntry>, pages: seq<AuditPage>, limit: nat, k: nat)
    requires limit >= 1 && 0 < k < |pages|
    requires IsSlice(d, pages, limit, k - 1) && pages[k - 1].nextCursor.Some?
    ensures 0 < Offset(k, limit) <= |d|
    ensures pages[k - 1].nextCursor == Some(d[Offset(k, limit) - 1].seqNo)
  {
    var at := Offset(k, limit);
    var prev := d[Offset(k - 1, limit)..];
    assert at == Offset(k - 1, limit) + limit;
    assert |prev| > limit && Last(Take(prev, limit)) == d[at - 1];
  }

  /** What a walk says of one page. */
  lemma WalkPage(logs: seq<seq<AuditEntry>>, pages: seq<AuditPage>, filter: AuditFilter, limit: nat, k: nat)
    requires CursorWalk(logs, pages, filter, limit) && k < |pages|
    ensures |logs| == |pages| && Ascending(logs[0]) && Ascending(logs[k]) && logs[0] <= logs[k]
    ensures k > 0 ==> pages[k - 1].nextCursor.Some?
    ensures pages[k] == DefaultPage(logs[k], filter, if k == 0 then None else pages[k - 1].nextCursor, limit)
  {
    assert CursorInto(pages, k) == if k == 0 then None else pages[k - 1].nextCursor;
  }

  lemma FirstSlice(first: seq<AuditEntry>, pages: seq<AuditPage>, filter: AuditFilter, limit: nat)
    requires |pages| > 0 && Ascending(first) && pages[0] == DefaultPage(first, filter, None, limit)
    ensures IsSlice(Reverse(Select(filter, None, first)), pages, limit, 0)
  {
    DefaultPageOfAscending(first, filter, None, limit);
    var d := Reverse(Select(filter, None, first));
    assert d[0..] == d;
  }

  lemma NextSlice(first: seq<AuditEntry>, later: seq<AuditEntry>, pages: seq<AuditPage>, filter: AuditFilter, limit: nat, k: nat)
    requires limit >= 1 && 0 < k < |pages| && Ascending(first) && Ascending(later) && first <= later
    requires IsSlice(Reverse(Select(filter, None, first)), pages, limit, k - 1)
    requires pages[k - 1].nextCursor.Some? && pages[k] == DefaultPage(later, filter, pages[k - 1].nextCursor, limit)
    ensures IsSlice(Reverse(Select(filter, None, first)), pages, limit, k)
  {
    hide Ascending, DefaultPage, Select, CutPage, Offset;
    CursorIsBoundary(Reverse(Select(filter, None, first)), pages, limit, k);
    CandidatesBelow(filter, first, later, Offset(k, limit), limit);
  }

  /** Page k of the walk is the k-th slice of the reversed selection of the first log. */
  lemma {:induction false} WalkSlices(logs: seq<seq<AuditEntry>>, pages: seq<AuditPage>, filter: AuditFilter, limit: nat, k: nat)
    requires limit >= 1 && CursorWalk(logs, pages, filter, limit) && k < |pages|
    ensures IsSlice(Reverse(Select(filter, None, logs[0])), pages, limit, k)
  {
    hide *;
    WalkPage(logs, pages, filter, limit, k);
    if k == 0 {
      FirstSlice(logs[0], pages, filter, limit);
    } else {
      WalkSlices(logs, pages, filter, limit, k - 1);
      NextSlice(logs[0], logs[k], pages, filter, limit, k);
    }
  }

  lemma TakeThenTake(d: seq<AuditEntry>, at: nat, limit: nat)
    requires at <= |d|
    ensures Take(d, at) + Take(d[at..], limit) == Take(d, at + limit)
  {
  }

  lemma {:induction false} SlicesJoin(d: seq<AuditEntry>, pages: seq<AuditPage>, limit: nat)
    requires forall k :: 0 <= k < |pages| ==> IsSlice(d, pages, limit, k)
    ensures PageEntries(pages) == Take(d, Offset(|pages|, limit))
  {
    if pages != [] {
      var n := |pages| - 1;
      var front := Init(pages);
      forall k | 0 <= k < n ensures IsSlice(d, front, limit, k) {
        assert IsSlice(d, pages, limit, k);
      }
      SlicesJoin(d, front, limit);
      assert IsSlice(d, pages, limit, n);
      TakeThenTake(d, Offset(n, limit), limit);
    }
  }

  /** A walk with limit >= 1 yields the matching entries of the first log, newest first, each once. */
  lemma WalkYieldsAll(logs: seq<seq<AuditEntry>>, pages: seq<AuditPage>, filter: AuditFilter, limit: nat)
    requires limit >= 1 && CursorWalk(logs, pages, filter, limit)
    ensures var d := Reverse(Select(filter, None, logs[0]));
      && Descending(d)
      && PageEntries(pages) <= d
      && (Last(pages).nextCursor.None? <==> PageEntries(pages) == d)
      // in terms of the fields asked for
      && (forall e :: e in PageEntries(pages) ==> e in logs[0] && Meets(filter, e))
      && (Last(pages).nextCursor.None? ==> forall e :: e in logs[0] && Meets(filter, e) ==> e in PageEntries(pages))
  {
    var d := Reverse(Select(filter, None, logs[0]));
    SelectAscending(filter, None, logs[0]);
    forall k | 0 <= k < |pages| ensures IsSlice(d, pages, limit, k) {
      WalkSlices(logs, pages, filter, limit, k);
    }
    SlicesJoin(d, pages, limit);
    assert IsSlice(d, pages, limit, |pages| - 1);
    ReversedSelection(filter, None, logs[0]);
  }

  lemma WalkIsNonEmpty(logs: seq<seq<AuditEntry>>, pages: seq<AuditPage>, filter: AuditFilter, limit: nat)
    requires CursorWalk(logs, pages, filter, limit)
    ensures |pages| == |logs| > 0
  {
  }

  lemma SliceStarts(d: seq<AuditEntry>, pages: seq<AuditPage>, limit: nat, k: nat)
    requires k < |pages| && IsSlice(d, pages, limit, k)
    ensures Offset(k, limit) <= |d|
  {
  }

  /** A walk cannot go on for ever: it has at most one page per matching entry, and one more. */
  lemma WalkTerminates(logs: seq<seq<AuditEntry>>, pages: seq<AuditPage>, filter: AuditFilter, limit: nat)
    requires limit >= 1 && CursorWalk(logs, pages, filter, limit)
    ensures |pages| <= |Select(filter, None, logs[0])| + 1
  {
    hide *;
    WalkIsNonEmpty(logs, pages, filter, limit);
    WalkSlices(logs, pages, filter, limit, |pages| - 1);
    SliceStarts(Reverse(Select(filter, None, logs[0])), pages, limit, |pages| - 1);
    OffsetGrows(|pages| - 1, limit);
  }
}
