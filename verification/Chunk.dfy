/** Splitting a document into overlapping windows of whole words. */
module Chunk {
  import opened Seqs
  import opened Text

  datatype ChunkPolicy = ChunkPolicy(maxChars: nat, overlapChars: nat)

  /** Both limits as the splitter uses them: at least one character, and an overlap below the maximum. */
  datatype Limits = Limits(max: nat, overlap: nat)

  /** words[start..end]. */
  datatype Window = Window(start: nat, end: nat)

  predicate InBounds(words: seq<string>, ws: seq<Window>) {
    forall i :: 0 <= i < |ws| ==> ws[i].start < ws[i].end <= |words|
  }

  function LimitsOf(p: ChunkPolicy): (l: Limits)
    ensures l.max >= 1 && l.overlap < l.max
    ensures if p.maxChars >= 1 then l.max == p.maxChars else l.max == 1
    ensures if p.overlapChars < l.max then l.overlap == p.overlapChars else l.overlap == l.max - 1
  {
    var max := if p.maxChars < 1 then 1 else p.maxChars;
    Limits(max, if p.overlapChars <= max - 1 then p.overlapChars else max - 1)
  }

  // ---- sizes ----

  /** Length of words[a..b] joined by single spaces. */
  function Len(words: seq<string>, a: nat, b: nat): nat
    requires a <= b <= |words|
  {
    if a == b then 0
    else if a + 1 == b then |words[a]|
    else Len(words, a, b - 1) + 1 + |words[b - 1]|
  }

  /** What words[a..b] contribute to an overlap: their characters and one space each. */
  function Cover(words: seq<string>, a: nat, b: nat): nat
    requires a <= b <= |words|
    decreases b - a
  {
    if a == b then 0 else |words[a]| + 1 + Cover(words, a + 1, b)
  }

  function JoinWords(words: seq<string>): string {
    if words == [] then [] else if |words| == 1 then words[0] else JoinWords(Init(words)) + " " + Last(words)
  }

  lemma {:induction false} LenIsJoinedLength(words: seq<string>, a: nat, b: nat)
    requires a <= b <= |words|
    ensures |JoinWords(words[a..b])| == Len(words, a, b)
    decreases b
  {
    if a + 1 < b {
      LenIsJoinedLength(words, a, b - 1);
      assert Init(words[a..b]) == words[a..b - 1];
    }
  }

  /** A window a chunk may be: within the limit, or a single word. */
  predicate Allowed(words: seq<string>, max: nat, a: nat, b: nat) {
    a < b <= |words| && (b == a + 1 || Len(words, a, b) <= max)
  }

  // ---- the windows ----

  /** Grow the window while the next word still fits. */
  function GrowFrom(words: seq<string>, max: nat, start: nat, end: nat): (e: nat)
    requires start < end <= |words|
    ensures end <= e <= |words|
    decreases |words| - end
  {
    if end < |words| && Len(words, start, end + 1) <= max then GrowFrom(words, max, start, end + 1) else end
  }

  function WindowEnd(words: seq<string>, max: nat, start: nat): (e: nat)
    requires start < |words|
    ensures start < e <= |words|
  {
    GrowFrom(words, max, start, start + 1)
  }

  /** Step back over the tail of the window until the overlap is covered, never to its start. */
  function BackFrom(words: seq<string>, overlap: nat, start: nat, end: nat, next: nat): (n: nat)
    requires start < next <= end <= |words|
    ensures start < n <= next
  {
    if next > start + 1 && Cover(words, next, end) < overlap then BackFrom(words, overlap, start, end, next - 1) else next
  }

  function NextStart(words: seq<string>, overlap: nat, start: nat, end: nat): (n: nat)
    requires start < end <= |words|
    ensures start < n <= end
  {
    BackFrom(words, overlap, start, end, end)
  }

  function Windows(words: seq<string>, l: Limits, start: nat): (ws: seq<Window>)
    requires start < |words|
    ensures |ws| > 0 && ws[0].start == start
    ensures InBounds(words, ws)
    decreases |words| - start
  {
    var end := WindowEnd(words, l.max, start);
    [Window(start, end)] + if end >= |words| then [] else Windows(words, l, NextStart(words, l.overlap, start, end))
  }

  function Render(words: seq<string>, ws: seq<Window>): seq<string>
    requires InBounds(words, ws)
  {
    if ws == [] then [] else Render(words, Init(ws)) + [JoinWords(words[Last(ws).start..Last(ws).end])]
  }

  function Chunks(content: string, p: ChunkPolicy): seq<string> {
    var words := Words(content);
    if words == [] then [] else Render(words, Windows(words, LimitsOf(p), 0))
  }

  /** The first inner loop: take words until the next one would overflow, always at least one. */
  method GrowWindow(words: seq<string>, maxChars: nat, start: nat) returns (end: nat)
    requires start < |words|
    ensures end == WindowEnd(words, maxChars, start)
  {
    end := start;
    var len := 0;
    while end < |words|
      invariant start <= end <= |words|
      invariant len == Len(words, start, end)
      invariant end > start ==> GrowFrom(words, maxChars, start, end) == WindowEnd(words, maxChars, start)
    {
      var add := |words[end]| + if end > start then 1 else 0;
      if len + add > maxChars && end > start { break; }
      len := len + add;
      end := end + 1;
    }
  }

  /** The second inner loop: step back over the tail until the overlap is covered. */
  method StepBack(words: seq<string>, overlap: nat, start: nat, end: nat) returns (next: nat)
    requires start < end <= |words|
    ensures next == NextStart(words, overlap, start, end)
  {
    next := end;
    var covered := 0;
    while next > start + 1 && covered < overlap
      invariant start < next <= end
      invariant covered == Cover(words, next, end)
      invariant BackFrom(words, overlap, start, end, next) == NextStart(words, overlap, start, end)
    {
      next := next - 1;
      covered := covered + |words[next]| + 1;
    }
  }

  lemma RenderSnoc(words: seq<string>, ws: seq<Window>, w: Window)
    requires InBounds(words, ws)
    requires w.start < w.end <= |words|
    ensures InBounds(words, ws + [w])
    ensures Render(words, ws + [w]) == Render(words, ws) + [JoinWords(words[w.start..w.end])]
  {
    assert Init(ws + [w]) == ws;
  }

  lemma RenderNothing(words: seq<string>)
    ensures InBounds(words, []) && Render(words, []) == []
  {
  }

  lemma WindowsUnfold(words: seq<string>, l: Limits, start: nat)
    requires start < |words|
    ensures var end := WindowEnd(words, l.max, start);
      Windows(words, l, start) ==
        if end >= |words| then [Window(start, end)] else [Window(start, end)] + Windows(words, l, NextStart(words, l.overlap, start, end))
  {
  }

  method Split(content: string, policy: ChunkPolicy) returns (chunks: seq<string>)
    ensures chunks == Chunks(content, policy)
  {
    var words := Words(content);
    if words == [] { return []; }
    hide InBounds, Words, JoinWords, Render, Windows, WindowEnd, NextStart;
    var l := LimitsOf(policy);
    ghost var all := Windows(words, l, 0);
    ghost var done: seq<Window> := [];
    ghost var rest := all;
    chunks := [];
    var start := 0;
    RenderNothing(words);
    while true
      invariant start < |words| && rest == Windows(words, l, start)
      invariant done + rest == all && InBounds(words, done)
      invariant chunks == Render(words, done)
      decreases |words| - start
    {
      var end := GrowWindow(words, l.max, start);
      RenderSnoc(words, done, Window(start, end));
      WindowsUnfold(words, l, start);
      chunks := chunks + [JoinWords(words[start..end])];
      if end >= |words| { return; }
      var next := StepBack(words, l.overlap, start, end);
      rest := Windows(words, l, next);
      AppendThenConcat(done, Window(start, end), rest);
      done := done + [Window(start, end)];
      start := next;
    }
  }

  // ---- what the windows are ----

  lemma {:induction false} LenGrows(words: seq<string>, a: nat, b: nat, c: nat)
    requires a <= b <= c <= |words|
    ensures Len(words, a, b) <= Len(words, a, c)
    decreases c
  {
    if b < c { LenGrows(words, a, b, c - 1); }
  }

  lemma {:induction false} LenShrinks(words: seq<string>, a: nat, a': nat, b: nat)
    requires a <= a' <= b <= |words|
    ensures Len(words, a', b) <= Len(words, a, b)
    decreases b
  {
    if a' + 1 < b { LenShrinks(words, a, a', b - 1); }
  }

  lemma {:induction false} GrowFromIsGreatest(words: seq<string>, max: nat, start: nat, end: nat)
    requires start < end <= |words| && Allowed(words, max, start, end)
    ensures var e := GrowFrom(words, max, start, end);
      Allowed(words, max, start, e) && forall b :: e < b <= |words| ==> Len(words, start, b) > max
    decreases |words| - end
  {
    if end < |words| && Len(words, start, end + 1) <= max {
      GrowFromIsGreatest(words, max, start, end + 1);
    } else {
      forall b | end < b <= |words| ensures Len(words, start, b) > max {
        LenGrows(words, start, end + 1, b);
      }
    }
  }

  /** Each window is allowed, and the longest allowed one from its start. */
  lemma WindowEndIsGreatest(words: seq<string>, max: nat, start: nat)
    requires start < |words|
    ensures var e := WindowEnd(words, max, start);
      Allowed(words, max, start, e) && forall b: nat :: Allowed(words, max, start, b) ==> b <= e
  {
    GrowFromIsGreatest(words, max, start, start + 1);
  }

  lemma {:induction false} CoverGrows(words: seq<string>, a: nat, a': nat, b: nat)
    requires a <= a' <= b <= |words|
    ensures Cover(words, a', b) <= Cover(words, a, b)
    decreases b - a
  {
    if a < a' { CoverGrows(words, a + 1, a', b); }
  }

  /** The next start covers the overlap as late as possible after the previous start; if none does, it is the one right after. */
  lemma {:induction false} NextStartIsLatest(words: seq<string>, overlap: nat, start: nat, end: nat, next: nat)
    requires start < next <= end <= |words|
    requires forall m :: next < m <= end ==> Cover(words, m, end) < overlap
    ensures var n := BackFrom(words, overlap, start, end, next);
      && (Cover(words, n, end) >= overlap || n == start + 1)
      && (forall m :: n < m <= end ==> Cover(words, m, end) < overlap)
    decreases next
  {
    if next > start + 1 && Cover(words, next, end) < overlap {
      NextStartIsLatest(words, overlap, start, end, next - 1);
    }
  }

  /** Consecutive windows: the next starts later but leaves no gap, and ends no earlier. */
  ghost predicate Follows(words: seq<string>, l: Limits, w: Window, v: Window) {
    && w.start < v.start <= w.end <= |words| && w.end <= v.end
    && (Cover(words, v.start, w.end) >= l.overlap || v.start == w.start + 1)
    && (forall m :: v.start < m <= w.end ==> Cover(words, m, w.end) < l.overlap)
  }

  lemma LaterStartEndsLater(words: seq<string>, max: nat, a: nat, a': nat)
    requires a <= a' < |words|
    ensures WindowEnd(words, max, a) <= WindowEnd(words, max, a')
  {
    WindowEndIsGreatest(words, max, a);
    WindowEndIsGreatest(words, max, a');
    var e := WindowEnd(words, max, a);
    if a' + 1 < e {
      LenShrinks(words, a, a', e);
      assert Allowed(words, max, a', e);
    }
  }

  /** Every window ends as late as it may. */
  ghost predicate GreedyEnds(words: seq<string>, l: Limits, ws: seq<Window>)
    requires InBounds(words, ws)
  {
    forall i :: 0 <= i < |ws| ==> ws[i].end == WindowEnd(words, l.max, ws[i].start)
  }

  ghost predicate Chained(words: seq<string>, l: Limits, ws: seq<Window>) {
    forall i :: 0 <= i < |ws| - 1 ==> Follows(words, l, ws[i], ws[i + 1])
  }

  lemma SoundCons(words: seq<string>, l: Limits, w: Window, rest: seq<Window>)
    requires rest != [] && InBounds(words, rest) && w.start < w.end <= |words|
    requires w.end == WindowEnd(words, l.max, w.start) && GreedyEnds(words, l, rest)
    requires Follows(words, l, w, rest[0]) && Chained(words, l, rest)
    ensures InBounds(words, [w] + rest)
    ensures GreedyEnds(words, l, [w] + rest) && Chained(words, l, [w] + rest)
  {
    hide Follows, WindowEnd;
    var ws := [w] + rest;
    forall i | 0 <= i < |ws| - 1 ensures Follows(words, l, ws[i], ws[i + 1]) {
      if i > 0 { assert ws[i] == rest[i - 1] && ws[i + 1] == rest[i]; }
    }
  }

  /** Windows cover all words in order, each the longest allowed from its start, one following the other. */
  lemma {:induction false} WindowsAreSound(words: seq<string>, l: Limits, start: nat)
    requires start < |words|
    ensures var ws := Windows(words, l, start);
      && Last(ws).end == |words|
      && GreedyEnds(words, l, ws) && Chained(words, l, ws)
    decreases |words| - start
  {
    var end := WindowEnd(words, l.max, start);
    if end < |words| {
      var next := NextStart(words, l.overlap, start, end);
      NextStartIsLatest(words, l.overlap, start, end, end);
      LaterStartEndsLater(words, l.max, start, next);
      WindowsAreSound(words, l, next);
      WindowsUnfold(words, l, start);
      hide Windows, WindowEnd, NextStart;
      SoundCons(words, l, Window(start, end), Windows(words, l, next));
    } else {
      WindowsUnfold(words, l, start);
    }
  }

  /** At most one chunk per word, whatever the overlap. */
  lemma {:induction false} AtMostOneChunkPerWord(words: seq<string>, l: Limits, start: nat)
    requires start < |words|
    ensures |Windows(words, l, start)| <= |words| - start
    decreases |words| - start
  {
    var end := WindowEnd(words, l.max, start);
    if end < |words| {
      AtMostOneChunkPerWord(words, l, NextStart(words, l.overlap, start, end));
    }
  }

  /** Every word is in some window. */
  lemma {:induction false} EveryWordIsCovered(words: seq<string>, l: Limits, start: nat, i: nat)
    requires start <= i < |words|
    ensures exists w :: w in Windows(words, l, start) && w.start <= i < w.end
    decreases |words| - start
  {
    var end := WindowEnd(words, l.max, start);
    if i < end {
      assert Window(start, end) in Windows(words, l, start);
    } else {
      var next := NextStart(words, l.overlap, start, end);
      EveryWordIsCovered(words, l, next, i);
      var w :| w in Windows(words, l, next) && w.start <= i < w.end;
      assert w in Windows(words, l, start);
    }
  }

  /** Each chunk is within the limit, or is a single word. */
  lemma {:induction false} ChunksFit(words: seq<string>, ws: seq<Window>, max: nat, i: nat)
    requires InBounds(words, ws)
    requires forall k :: 0 <= k < |ws| ==> Allowed(words, max, ws[k].start, ws[k].end)
    requires i < |ws|
    ensures |Render(words, ws)| == |ws|
    ensures Render(words, ws)[i] == JoinWords(words[ws[i].start..ws[i].end])
    ensures |Render(words, ws)[i]| <= max || Render(words, ws)[i] == words[ws[i].start]
  {
    if i < |ws| - 1 {
      ChunksFit(words, Init(ws), max, i);
    } else {
      if |ws| > 1 { ChunksFit(words, Init(ws), max, 0); }
      LenIsJoinedLength(words, ws[i].start, ws[i].end);
    }
  }

  lemma SplitChunksFit(content: string, p: ChunkPolicy, i: nat)
    requires i < |Chunks(content, p)|
    ensures |Chunks(content, p)[i]| <= LimitsOf(p).max || Chunks(content, p)[i] in Words(content)
    ensures |Chunks(content, p)| <= |Words(content)|
  {
    var words, l := Words(content), LimitsOf(p);
    WindowsAreSound(words, l, 0);
    AtMostOneChunkPerWord(words, l, 0);
    var ws := Windows(words, l, 0);
    forall k | 0 <= k < |ws| ensures Allowed(words, l.max, ws[k].start, ws[k].end) {
      WindowEndIsGreatest(words, l.max, ws[k].start);
    }
    ChunksFit(words, ws, l.max, if i < |ws| then i else 0);
  }

  // ---- short runs of words appear whole ----

  /** Stepping back covers the overlap exactly when stepping back as far as allowed would. */
  lemma OverlapCoveredIff(words: seq<string>, overlap: nat, start: nat, end: nat)
    requires start < end <= |words|
    ensures Cover(words, NextStart(words, overlap, start, end), end) >= overlap <==> Cover(words, start + 1, end) >= overlap
  {
    var n := NextStart(words, overlap, start, end);
    NextStartIsLatest(words, overlap, start, end, end);
    CoverGrows(words, start + 1, n, end);
  }

  lemma {:induction false} LenIsCover(words: seq<string>, a: nat, b: nat)
    requires a < b <= |words|
    ensures Len(words, a, b) == Cover(words, a, b) - 1
    decreases b - a
  {
    if a + 1 < b {
      LenIsCover(words, a + 1, b);
      LenFront(words, a, b);
    }
  }

  lemma {:induction false} LenFront(words: seq<string>, a: nat, b: nat)
    requires a + 1 < b <= |words|
    ensures Len(words, a, b) == |words[a]| + 1 + Len(words, a + 1, b)
    decreases b
  {
    if a + 2 < b { LenFront(words, a, b - 1); }
  }

  ghost predicate NoEmptyWord(words: seq<string>) {
    forall i :: 0 <= i < |words| ==> words[i] != []
  }

  /** A single word, or a run within the limit whose inner words cover less than the overlap. */
  predicate Held(words: seq<string>, l: Limits, a: nat, b: nat) {
    a < b <= |words| && (b == a + 1 || (Len(words, a, b) <= l.max && Cover(words, a + 1, b - 1) < l.overlap))
  }

  /** A run that straddles the end of a window and starts before the next one has inner words that cover the overlap. */
  lemma CutRunCovers(words: seq<string>, overlap: nat, start: nat, end: nat, a: nat, b: nat)
    requires start < end < b <= |words|
    requires var n := NextStart(words, overlap, start, end); a < n && Cover(words, n, end) >= overlap
    ensures Cover(words, a + 1, b - 1) >= overlap
  {
    var n := NextStart(words, overlap, start, end);
    CoverGrows(words, a + 1, n, end);
    CoverExtends(words, a + 1, end, b - 1);
  }

  lemma {:induction false} CoverExtends(words: seq<string>, a: nat, b: nat, b': nat)
    requires a <= b <= b' <= |words|
    ensures Cover(words, a, b) <= Cover(words, a, b')
    decreases b - a
  {
    if a < b { CoverExtends(words, a + 1, b, b'); }
  }

  /** A held run that a window does not hold starts no earlier than the next window. */
  lemma HeldStaysAhead(words: seq<string>, l: Limits, start: nat, a: nat, b: nat)
    requires start <= a && Held(words, l, a, b) && WindowEnd(words, l.max, start) < b
    ensures NextStart(words, l.overlap, start, WindowEnd(words, l.max, start)) <= a
  {
    var end := WindowEnd(words, l.max, start);
    NextStartIsLatest(words, l.overlap, start, end, end);
    WindowEndIsGreatest(words, l.max, start);
    hide WindowEnd, NextStart;
    assert Allowed(words, l.max, a, b);
    if a < NextStart(words, l.overlap, start, end) {
      CutRunCovers(words, l.overlap, start, end, a, b);
    }
  }

  /** A run whose inner words cover less than the overlap lies whole in some window. */
  lemma {:induction false} HeldRunsAppearWhole(words: seq<string>, l: Limits, start: nat, a: nat, b: nat)
    requires start <= a && Held(words, l, a, b)
    ensures exists w :: w in Windows(words, l, start) && w.start <= a && b <= w.end
    decreases |words| - start
  {
    var end := WindowEnd(words, l.max, start);
    if b <= end {
      assert Window(start, end) in Windows(words, l, start);
    } else {
      var next := NextStart(words, l.overlap, start, end);
      HeldStaysAhead(words, l, start, a, b);
      WindowsUnfold(words, l, start);
      hide Windows, WindowEnd, NextStart, Held;
      HeldRunsAppearWhole(words, l, next, a, b);
      var w :| w in Windows(words, l, next) && w.start <= a && b <= w.end;
      assert w in Windows(words, l, start);
    }
  }

  /** The run lies whole in some window. */
  ghost predicate Whole(words: seq<string>, l: Limits, a: nat, b: nat) {
    words != [] && exists w :: w in Windows(words, l, 0) && w.start <= a && b <= w.end
  }

  /** Two words or more that are longer than the limit together are never in one window. */
  lemma OverlongRunsAreCut(words: seq<string>, l: Limits, a: nat, b: nat)
    requires a + 1 < b <= |words| && Len(words, a, b) > l.max
    ensures !Whole(words, l, a, b)
  {
    WindowsAreSound(words, l, 0);
    var ws := Windows(words, l, 0);
    forall i | 0 <= i < |ws| ensures !(ws[i].start <= a && b <= ws[i].end) {
      WindowEndIsGreatest(words, l.max, ws[i].start);
      if ws[i].start <= a && b <= ws[i].end {
        LenShrinks(words, ws[i].start, a, b);
        LenGrows(words, ws[i].start, b, ws[i].end);
      }
    }
  }

  function Xs(n: nat): (s: string)
    ensures |s| == n
  {
    if n == 0 then "" else "x" + Xs(n - 1)
  }

  lemma {:induction false} LenShift(p: string, r: seq<string>, a: nat, b: nat)
    requires a <= b <= |r|
    ensures Len([p] + r, a + 1, b + 1) == Len(r, a, b)
    decreases b
  {
    if a + 1 < b { LenShift(p, r, a, b - 1); }
  }

  lemma {:induction false} CoverShift(p: string, r: seq<string>, a: nat, b: nat)
    requires a <= b <= |r|
    ensures Cover([p] + r, a + 1, b + 1) == Cover(r, a, b)
    decreases b - a
  {
    if a < b { CoverShift(p, r, a + 1, b); }
  }

  lemma {:induction false} WindowsStartLater(words: seq<string>, l: Limits, start: nat, w: Window)
    requires start < |words| && w in Windows(words, l, start)
    ensures w.start >= start
    decreases |words| - start
  {
    var end := WindowEnd(words, l.max, start);
    if w != Window(start, end) { WindowsStartLater(words, l, NextStart(words, l.overlap, start, end), w); }
  }

  /** A word so long that with it in front the first window ends right before the last word of the run. */
  function Filler(r: seq<string>, l: Limits): string
    requires |r| >= 2 && Last(r) != [] && Len(r, 0, |r|) <= l.max
  {
    Xs(l.max - Len(r, 0, |r| - 1) - 1)
  }

  lemma FillerFits(r: seq<string>, l: Limits)
    requires |r| >= 2 && Last(r) != [] && Len(r, 0, |r|) <= l.max
    ensures var words := [Filler(r, l)] + r;
      Filler(r, l) != [] && WindowEnd(words, l.max, 0) == |r|
  {
    var n, p := |r|, Filler(r, l);
    var words := [p] + r;
    assert Len(r, 0, n) == Len(r, 0, n - 1) + 1 + |Last(r)|;
    LenFront(words, 0, n);
    LenShift(p, r, 0, n - 1);
    assert Len(words, 0, n) == l.max;
    assert Len(words, 0, n + 1) == l.max + 1 + |Last(r)|;
    WindowEndIsGreatest(words, l.max, 0);
    assert Allowed(words, l.max, 0, n) && !Allowed(words, l.max, 0, n + 1);
  }

  /** Behind that word a run whose inner words cover the overlap is cut. */
  lemma CutBehindFiller(r: seq<string>, l: Limits)
    requires |r| >= 2 && Last(r) != [] && Len(r, 0, |r|) <= l.max && Cover(r, 1, |r| - 1) >= l.overlap
    ensures Filler(r, l) != [] && !Whole([Filler(r, l)] + r, l, 1, 1 + |r|)
  {
    var n, p := |r|, Filler(r, l);
    var words := [p] + r;
    FillerFits(r, l);
    var next := NextStart(words, l.overlap, 0, n);
    NextStartIsLatest(words, l.overlap, 0, n, n);
    CoverShift(p, r, 1, n - 1);
    assert next >= 2;
    WindowsUnfold(words, l, 0);
    forall w | w in Windows(words, l, 0) ensures !(w.start <= 1 && 1 + n <= w.end) {
      if w != Window(0, n) { WindowsStartLater(words, l, next, w); }
    }
  }

  /** The run's words stand in the document at a. */
  ghost predicate StandsAt(r: seq<string>, words: seq<string>, a: nat) {
    NoEmptyWord(words) && a + |r| <= |words| && words[a..a + |r|] == r
  }

  /** The run is whole wherever it stands, in whatever document. */
  ghost predicate NeverCut(r: seq<string>, l: Limits) {
    forall words, a: nat :: StandsAt(r, words, a) ==> Whole(words, l, a, a + |r|)
  }

  lemma {:induction false} LenOfSlice(words: seq<string>, at: nat, r: seq<string>, a: nat, b: nat)
    requires at + |r| <= |words| && words[at..at + |r|] == r && a <= b <= |r|
    ensures Len(words, at + a, at + b) == Len(r, a, b)
    decreases b
  {
    if a + 1 < b { LenOfSlice(words, at, r, a, b - 1); }
    if a < b { assert words[at + (b - 1)] == r[b - 1] && words[at + a] == r[a]; }
  }

  lemma {:induction false} CoverOfSlice(words: seq<string>, at: nat, r: seq<string>, a: nat, b: nat)
    requires at + |r| <= |words| && words[at..at + |r|] == r && a <= b <= |r|
    ensures Cover(words, at + a, at + b) == Cover(r, a, b)
    decreases b - a
  {
    if a < b {
      assert words[at + a] == r[a];
      CoverOfSlice(words, at, r, a + 1, b);
    }
  }

  lemma HeldIsWhole(r: seq<string>, l: Limits, words: seq<string>, a: nat)
    requires r != [] && Held(r, l, 0, |r|) && a + |r| <= |words| && words[a..a + |r|] == r
    ensures Whole(words, l, a, a + |r|)
  {
    LenOfSlice(words, a, r, 0, |r|);
    if |r| > 1 { CoverOfSlice(words, a, r, 1, |r| - 1); }
    HeldRunsAppearWhole(words, l, 0, a, a + |r|);
  }

  /**
   * The exact reach of the overlap: a run of words is whole in every document if and only if it is one word, or
   * within the limit with inner words, the first and the last left out, that cover less than the overlap.
   */
  lemma NeverCutIff(r: seq<string>, l: Limits)
    requires r != [] && NoEmptyWord(r)
    ensures NeverCut(r, l) <==> Held(r, l, 0, |r|)
  {
    if Held(r, l, 0, |r|) {
      forall words, a: nat | StandsAt(r, words, a) ensures Whole(words, l, a, a + |r|) {
        HeldIsWhole(r, l, words, a);
      }
    } else if Len(r, 0, |r|) > l.max {
      OverlongRunsAreCut(r, l, 0, |r|);
      assert r[0..0 + |r|] == r;
      assert StandsAt(r, r, 0);
    } else {
      var words := [Filler(r, l)] + r;
      CutBehindFiller(r, l);
      assert words[1..1 + |r|] == r;
      assert StandsAt(r, words, 1);
    }
  }

  // ---- in characters ----

  lemma InnerCover(words: seq<string>, a: nat, b: nat)
    requires a + 1 < b <= |words|
    ensures Len(words, a, b) == |words[a]| + 1 + Cover(words, a + 1, b - 1) + |words[b - 1]|
  {
    LenFront(words, a, b);
    if a + 2 < b { LenIsCover(words, a + 1, b - 1); }
  }

  /** A single word, or a run within the limit and at most two characters longer than the overlap. */
  predicate ShortRun(words: seq<string>, l: Limits, a: nat, b: nat) {
    a < b <= |words| && (b == a + 1 || (Len(words, a, b) <= l.max && Len(words, a, b) <= l.overlap + 2))
  }

  /** So every run within the limit and at most two characters longer than the overlap lies whole in some window. */
  lemma ShortRunsAppearWhole(words: seq<string>, l: Limits, start: nat, a: nat, b: nat)
    requires NoEmptyWord(words) && start <= a && ShortRun(words, l, a, b)
    ensures exists w :: w in Windows(words, l, start) && w.start <= a && b <= w.end
  {
    if b > a + 1 {
      InnerCover(words, a, b);
      assert words[a] != [] && words[b - 1] != [];
    }
    HeldRunsAppearWhole(words, l, start, a, b);
  }

  /** Two neighbouring words that fit a chunk are never cut apart once there is any overlap. */
  lemma NeighboursStayTogether(words: seq<string>, l: Limits, start: nat, a: nat)
    requires start <= a && a + 2 <= |words| && Len(words, a, a + 2) <= l.max && l.overlap >= 1
    ensures exists w :: w in Windows(words, l, start) && w.start <= a && a + 2 <= w.end
  {
    HeldRunsAppearWhole(words, l, start, a, a + 2);
  }

  /** One-character words around one of `overlap - 1`: one character more than `ShortRunsAppearWhole` allows. */
  function CutRun(l: Limits): (r: seq<string>)
    requires 2 <= l.overlap
  {
    [Xs(1), Xs(l.overlap - 1), Xs(1)]
  }

  /** From an overlap of two on, a run three characters longer than it can be cut although it would fit a window. */
  lemma OneMoreCanBeCut(l: Limits)
    requires 2 <= l.overlap && l.overlap + 3 <= l.max
    ensures var r := CutRun(l);
      NoEmptyWord(r) && Len(r, 0, 3) == l.overlap + 3 <= l.max && !NeverCut(r, l)
  {
    var r := CutRun(l);
    assert |r[0]| == 1 && |r[1]| == l.overlap - 1 && |r[2]| == 1;
    assert Len(r, 0, 2) == l.overlap + 1;
    assert Cover(r, 2, 2) == 0 && Cover(r, 1, 2) == l.overlap;
    NeverCutIff(r, l);
  }

  /** For instance six characters, with at most eight to a chunk and an overlap of three. */
  lemma SixCharactersCut()
    ensures var words, l := ["xxx", "x", "xx", "x"], Limits(8, 3);
      Len(words, 1, 4) == 6 && !Whole(words, l, 1, 4)
  {
    var r, l := ["x", "xx", "x"], Limits(8, 3);
    assert Len(r, 0, 2) == 4 && Len(r, 0, 3) == 6;
    assert Cover(r, 2, 2) == 0 && Cover(r, 1, 2) == 3;
    assert Filler(r, l) == Xs(3) == "xxx" by { assert Xs(1) == "x" && Xs(2) == "x" + Xs(1) && Xs(3) == "x" + Xs(2); }
    CutBehindFiller(r, l);
    assert [Filler(r, l)] + r == ["xxx", "x", "xx", "x"];
    LenShift("xxx", r, 0, 3);
  }

  // ---- the same, in the chunks of a text ----

  predicate Contains(text: string, part: string) {
    exists i, j :: 0 <= i <= j <= |text| && text[i..j] == part
  }

  lemma {:induction false} JoinConcat(x: seq<string>, y: seq<string>)
    requires x != [] && y != []
    ensures JoinWords(x + y) == JoinWords(x) + " " + JoinWords(y)
  {
    if |y| == 1 {
      assert Init(x + y) == x;
    } else {
      JoinConcat(x, Init(y));
      assert Init(x + y) == x + Init(y);
      ConcatAssociates(JoinWords(x) + " ", JoinWords(Init(y)), " ");
      ConcatAssociates(JoinWords(x) + " ", JoinWords(Init(y)) + " ", Last(y));
    }
  }

  lemma PartIsContained(before: string, part: string, after: string)
    ensures Contains(before + part + after, part)
  {
    var text := before + part + after;
    assert text[|before|..|before| + |part|] == part;
  }

  lemma JoinContains(words: seq<string>, c: nat, a: nat, b: nat, d: nat)
    requires c <= a < b <= d <= |words|
    ensures Contains(JoinWords(words[c..d]), JoinWords(words[a..b]))
  {
    var run := JoinWords(words[a..b]);
    var before := if c < a then JoinWords(words[c..a]) + " " else "";
    var after := if b < d then " " + JoinWords(words[b..d]) else "";
    assert JoinWords(words[c..b]) == before + run by {
      if c < a {
        JoinConcat(words[c..a], words[a..b]);
        assert words[c..b] == words[c..a] + words[a..b];
      }
    }
    assert JoinWords(words[c..d]) == before + run + after by {
      if b < d {
        JoinConcat(words[c..b], words[b..d]);
        assert words[c..d] == words[c..b] + words[b..d];
        ConcatAssociates(JoinWords(words[c..b]), " ", JoinWords(words[b..d]));
      }
    }
    PartIsContained(before, run, after);
  }

  lemma {:induction false} RenderAt(words: seq<string>, ws: seq<Window>, i: nat)
    requires InBounds(words, ws) && i < |ws|
    ensures |Render(words, ws)| == |ws| && Render(words, ws)[i] == JoinWords(words[ws[i].start..ws[i].end])
  {
    if i < |ws| - 1 {
      RenderAt(words, Init(ws), i);
    } else if |ws| > 1 {
      RenderAt(words, Init(ws), 0);
    }
  }

  /** A fact whose inner words cover less than the overlap appears whole in at least one chunk. */
  lemma HeldFactsAppearWhole(content: string, p: ChunkPolicy, a: nat, b: nat)
    requires Held(Words(content), LimitsOf(p), a, b)
    ensures exists i :: 0 <= i < |Chunks(content, p)| && Contains(Chunks(content, p)[i], JoinWords(Words(content)[a..b]))
  {
    var words, l := Words(content), LimitsOf(p);
    HeldRunsAppearWhole(words, l, 0, a, b);
    var ws := Windows(words, l, 0);
    assert Chunks(content, p) == Render(words, ws);
    hide Words, Windows, Contains, JoinWords, Render, Held, Chunks, LimitsOf;
    var w :| w in ws && w.start <= a && b <= w.end;
    var i :| 0 <= i < |ws| && ws[i] == w;
    RenderAt(words, ws, i);
    JoinContains(words, w.start, a, b, w.end);
  }

  /** In particular a fact within `max_chars` and of at most two characters more than the overlap. */
  lemma ShortFactsAppearWhole(content: string, p: ChunkPolicy, a: nat, b: nat)
    requires ShortRun(Words(content), LimitsOf(p), a, b)
    ensures exists i :: 0 <= i < |Chunks(content, p)| && Contains(Chunks(content, p)[i], JoinWords(Words(content)[a..b]))
  {
    WordsAreNotEmpty(content);
    if b > a + 1 { InnerCover(Words(content), a, b); }
    HeldFactsAppearWhole(content, p, a, b);
  }

  lemma WordsAreNotEmpty(content: string)
    ensures NoEmptyWord(Words(content))
  {
    var words := Words(content);
    forall i | 0 <= i < |words| ensures words[i] != [] { assert words[i] in words; }
  }

  // ---- zero overlap: an exact partition into the fewest chunks ----

  function Slices(words: seq<string>, ws: seq<Window>): seq<string>
    requires InBounds(words, ws)
  {
    if ws == [] then [] else words[ws[0].start..ws[0].end] + Slices(words, ws[1..])
  }

  /** Without overlap the windows, laid end to end, are the words. */
  lemma {:induction false} ZeroOverlapPartitions(words: seq<string>, l: Limits, start: nat)
    requires start < |words| && l.overlap == 0
    ensures Slices(words, Windows(words, l, start)) == words[start..]
    decreases |words| - start
  {
    var end := WindowEnd(words, l.max, start);
    if end < |words| {
      ZeroOverlapPartitions(words, l, end);
      assert NextStart(words, 0, start, end) == end;
      assert words[start..] == words[start..end] + words[end..];
    } else {
      assert words[start..end] + [] == words[start..];
    }
  }

  /** Boundaries of a split of words[from..] into consecutive allowed runs. */
  ghost predicate IsSplit(words: seq<string>, max: nat, from: nat, cuts: seq<nat>) {
    && |cuts| > 0 && cuts[0] == from && Last(cuts) == |words|
    && forall i :: 0 <= i < |cuts| - 1 ==> Allowed(words, max, cuts[i], cuts[i + 1])
  }

  /** No split into consecutive allowed runs, even one that starts earlier, has fewer runs. */
  lemma {:induction false} ZeroOverlapIsOptimal(words: seq<string>, l: Limits, start: nat, from: nat, cuts: seq<nat>)
    requires from <= start < |words| && l.overlap == 0 && IsSplit(words, l.max, from, cuts)
    ensures |Windows(words, l, start)| <= |cuts| - 1
    decreases |cuts|
  {
    var end := WindowEnd(words, l.max, start);
    assert |cuts| > 1 && Allowed(words, l.max, cuts[0], cuts[1]);
    WindowEndIsGreatest(words, l.max, from);
    LaterStartEndsLater(words, l.max, from, start);
    if end < |words| {
      assert NextStart(words, 0, start, end) == end;
      assert IsSplit(words, l.max, cuts[1], cuts[1..]) by {
        forall i | 0 <= i < |cuts[1..]| - 1 ensures Allowed(words, l.max, cuts[1..][i], cuts[1..][i + 1]) {
          assert Allowed(words, l.max, cuts[i + 1], cuts[i + 2]);
        }
      }
      ZeroOverlapIsOptimal(words, l, end, cuts[1], cuts[1..]);
    }
  }

  // ---- from the text to the words and back ----

  ghost predicate ProperWords(words: seq<string>) {
    forall i :: 0 <= i < |words| ==> words[i] != "" && NoneWhite(words[i])
  }

  lemma WordsAreProper(content: string)
    ensures ProperWords(Words(content))
  {
    var gaps := TextIsLayout(content);
  }

  /** Splitting joined words again gives the words back. */
  lemma {:induction false} JoinedWordsSplit(words: seq<string>)
    requires ProperWords(words)
    ensures Words(JoinWords(words)) == words
  {
    if |words| == 1 {
      FirstWord(words[0], "");
      assert words[0] + "" == words[0] && words == [words[0]];
    } else if |words| > 1 {
      var w, rest := words[..1], words[1..];
      assert words == w + rest && ProperWords(rest);
      JoinedWordsSplit(rest);
      JoinConcat(w, rest);
      var j := JoinWords(rest);
      ConcatAssociates(words[0], " ", j);
      assert (" " + j)[0] == ' ' && AllWhite(" ");
      hide Words, AllWhite, NoneWhite;
      WordsSkipWhite(" ", j);
      FirstWord(words[0], " " + j);
    }
  }

  /** A chunk holds exactly the words of its window, with whitespace normalised. */
  lemma ChunkHoldsItsWindow(content: string, p: ChunkPolicy, i: nat)
    requires i < |Chunks(content, p)|
    ensures var words := Words(content);
      && words != [] && var ws := Windows(words, LimitsOf(p), 0);
      i < |ws| && Words(Chunks(content, p)[i]) == words[ws[i].start..ws[i].end]
  {
    var words := Words(content);
    var ws := Windows(words, LimitsOf(p), 0);
    assert Chunks(content, p) == Render(words, ws);
    WordsAreProper(content);
    hide Words, Windows, Chunks, JoinWords, Render;
    RenderAt(words, ws, 0);
    RenderAt(words, ws, i);
    var w := ws[i];
    assert ProperWords(words[w.start..w.end]);
    JoinedWordsSplit(words[w.start..w.end]);
  }

  /** Every maximal piece of the text without whitespace stands in some chunk. */
  lemma EveryPieceIsInAChunk(content: string, p: ChunkPolicy, a: nat, b: nat)
    requires a < b <= |content| && NoneWhite(content[a..b])
    requires a > 0 ==> IsWhitespace(content[a - 1])
    requires b < |content| ==> IsWhitespace(content[b])
    ensures exists i :: 0 <= i < |Chunks(content, p)| && content[a..b] in Words(Chunks(content, p)[i])
  {
    PieceIsWord(content, a, b);
    hide *;
    var m :| 0 <= m < |Words(content)| && Words(content)[m] == content[a..b];
    WordIsInAChunk(content, p, m);
  }

  lemma PieceIsWord(content: string, a: nat, b: nat)
    requires a < b <= |content| && NoneWhite(content[a..b])
    requires a > 0 ==> IsWhitespace(content[a - 1])
    requires b < |content| ==> IsWhitespace(content[b])
    ensures exists m :: 0 <= m < |Words(content)| && Words(content)[m] == content[a..b]
  {
    var before, piece, after := content[..a], content[a..b], content[b..];
    assert content == before + piece + after;
    hide Words, NoneWhite;
    WordsAround(before, piece, after);
    assert Words(content)[|Words(before)|] == piece;
  }

  lemma WordIsInAChunk(content: string, p: ChunkPolicy, m: nat)
    requires m < |Words(content)|
    ensures exists i :: 0 <= i < |Chunks(content, p)| && Words(content)[m] in Words(Chunks(content, p)[i])
  {
    hide *;
    var words, l := Words(content), LimitsOf(p);
    var i := WindowOfWord(words, l, m);
    ChunkCount(content, p);
    ChunkHoldsItsWindow(content, p, i);
    var w := Windows(words, l, 0)[i];
    SliceHas(words, w.start, m, w.end);
  }

  lemma WindowOfWord(words: seq<string>, l: Limits, m: nat) returns (i: nat)
    requires m < |words|
    ensures i < |Windows(words, l, 0)|
    ensures var w := Windows(words, l, 0)[i]; w.start <= m < w.end <= |words|
  {
    EveryWordIsCovered(words, l, 0, m);
    var w :| w in Windows(words, l, 0) && w.start <= m < w.end;
    i :| 0 <= i < |Windows(words, l, 0)| && Windows(words, l, 0)[i] == w;
  }

  lemma ChunkCount(content: string, p: ChunkPolicy)
    requires Words(content) != []
    ensures |Chunks(content, p)| == |Windows(Words(content), LimitsOf(p), 0)|
  {
    hide Words, Windows, Render;
    RenderAt(Words(content), Windows(Words(content), LimitsOf(p), 0), 0);
  }

  lemma SliceHas(words: seq<string>, a: nat, m: nat, b: nat)
    requires a <= m < b <= |words|
    ensures words[m] in words[a..b]
  {
    assert words[a..b][m - a] == words[m];
  }

  function AllWords(chunks: seq<string>): seq<string> {
    if chunks == [] then [] else AllWords(Init(chunks)) + Words(Last(chunks))
  }

  lemma {:induction false} SlicesSnoc(words: seq<string>, ws: seq<Window>)
    requires ws != [] && InBounds(words, ws)
    ensures Slices(words, ws) == Slices(words, Init(ws)) + words[Last(ws).start..Last(ws).end]
  {
    if |ws| > 1 {
      SlicesSnoc(words, ws[1..]);
      assert Init(ws)[1..] == Init(ws[1..]);
      ConcatAssociates(words[ws[0].start..ws[0].end], Slices(words, Init(ws[1..])), words[Last(ws).start..Last(ws).end]);
    } else {
      assert ws[1..] == [] && Init(ws) == [];
    }
  }

  lemma {:induction false} RenderedWords(words: seq<string>, ws: seq<Window>)
    requires InBounds(words, ws) && ProperWords(words)
    ensures AllWords(Render(words, ws)) == Slices(words, ws)
  {
    if ws != [] {
      var w := Last(ws);
      RenderedWords(words, Init(ws));
      SlicesSnoc(words, ws);
      assert ProperWords(words[w.start..w.end]);
      JoinedWordsSplit(words[w.start..w.end]);
      assert Init(Render(words, ws)) == Render(words, Init(ws));
    }
  }

  /** Without overlap the chunks, split again one after another, are the words of the text. */
  lemma ZeroOverlapLosesNothing(content: string, p: ChunkPolicy)
    requires p.overlapChars == 0
    ensures AllWords(Chunks(content, p)) == Words(content)
  {
    var words, l := Words(content), LimitsOf(p);
    WordsAreProper(content);
    if words != [] {
      RenderedWords(words, Windows(words, l, 0));
      ZeroOverlapPartitions(words, l, 0);
      assert words[0..] == words;
    }
  }
}
