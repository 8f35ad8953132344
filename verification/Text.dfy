/** Characters and whitespace. */
module Text {
  import opened Seqs

  /** The characters with the Unicode White_Space property. */
  predicate IsWhitespace(c: char) {
    var n := c as int;
    9 <= n <= 13 || n == 32 || n == 0x85 || n == 0xA0 || n == 0x1680 || 0x2000 <= n <= 0x200A
    || n == 0x2028 || n == 0x2029 || n == 0x202F || n == 0x205F || n == 0x3000
  }

  predicate IsAsciiDigit(c: char) { '0' <= c <= '9' }

  /** Length of the longest prefix whose characters are whitespace, or are not. */
  function Span(s: string, white: bool): (n: nat)
    ensures n <= |s|
    ensures forall i :: 0 <= i < n ==> IsWhitespace(s[i]) == white
    ensures n < |s| ==> IsWhitespace(s[n]) != white
  {
    if s == [] || IsWhitespace(s[0]) != white then 0 else 1 + Span(s[1..], white)
  }

  /** `split_whitespace`: the maximal whitespace-free pieces. */
  function Words(s: string): (r: seq<string>)
    ensures forall w :: w in r ==> w != []
    decreases |s|
  {
    if s == [] then []
    else if IsWhitespace(s[0]) then Words(s[1..])
    else var n := Span(s, false); [s[..n]] + Words(s[n..])
  }

  predicate AllWhite(s: string) { forall c :: c in s ==> IsWhitespace(c) }

  predicate NoneWhite(s: string) { forall c :: c in s ==> !IsWhitespace(c) }

  /** Blanks, tabs and line ends are whitespace; no visible ASCII character is. */
  lemma AsciiWhitespace(c: char)
    ensures c in " \t\n\r" ==> IsWhitespace(c)
    ensures '!' <= c <= '~' ==> !IsWhitespace(c)
  {
  }

  lemma {:induction false} SpanOfPiece(p: string, rest: string)
    requires NoneWhite(p) && (rest != "" ==> IsWhitespace(rest[0]))
    ensures Span(p + rest, false) == |p|
  {
    if p == "" {
      assert p + rest == rest;
    } else {
      assert (p + rest)[1..] == p[1..] + rest && p[0] in p;
      assert forall c :: c in p[1..] ==> c in p;
      SpanOfPiece(p[1..], rest);
    }
  }

  lemma {:induction false} WordsSkipWhite(gap: string, rest: string)
    requires AllWhite(gap)
    ensures Words(gap + rest) == Words(rest)
  {
    if gap == "" {
      assert gap + rest == rest;
    } else {
      assert (gap + rest)[1..] == gap[1..] + rest && gap[0] in gap;
      assert forall c :: c in gap[1..] ==> c in gap;
      WordsSkipWhite(gap[1..], rest);
    }
  }

  lemma FirstWord(p: string, rest: string)
    requires p != "" && NoneWhite(p) && (rest != "" ==> IsWhitespace(rest[0]))
    ensures Words(p + rest) == [p] + Words(rest)
  {
    SpanOfPiece(p, rest);
    assert p[0] in p && (p + rest)[0] == p[0];
    assert (p + rest)[..|p|] == p && (p + rest)[|p|..] == rest;
  }

  /** Words with the whitespace around them: gaps[i] stands before words[i], and the last gap behind them all. */
  function LayOut(gaps: seq<string>, words: seq<string>): string
    requires |gaps| == |words| + 1
  {
    if words == [] then gaps[0] else gaps[0] + (words[0] + LayOut(gaps[1..], words[1..]))
  }

  /** Non-empty pieces without whitespace; whitespace around them, and at least some between any two. */
  ghost predicate IsLayout(gaps: seq<string>, words: seq<string>) {
    && |gaps| == |words| + 1
    && (forall i :: 0 <= i < |gaps| ==> AllWhite(gaps[i]))
    && (forall i :: 0 < i < |words| ==> gaps[i] != "")
    && (forall i :: 0 <= i < |words| ==> words[i] != "" && NoneWhite(words[i]))
  }

  /** Pieces laid out with whitespace between them are exactly the words of the text. */
  lemma {:induction false} WordsOfLayout(gaps: seq<string>, words: seq<string>)
    requires IsLayout(gaps, words)
    ensures Words(LayOut(gaps, words)) == words
    decreases |words|
  {
    if words == [] {
      WordsSkipWhite(gaps[0], "");
      assert gaps[0] + "" == gaps[0];
    } else {
      var rest := LayOut(gaps[1..], words[1..]);
      assert IsLayout(gaps[1..], words[1..]);
      WordsOfLayout(gaps[1..], words[1..]);
      LayoutStartsWhite(gaps[1..], words[1..]);
      hide Words, LayOut, AllWhite, NoneWhite;
      assert words[1..] != [] ==> gaps[1] != "";
      WordsSkipWhite(gaps[0], words[0] + rest);
      FirstWord(words[0], rest);
    }
  }

  lemma LayoutStartsWhite(gaps: seq<string>, words: seq<string>)
    requires IsLayout(gaps, words)
    ensures words == [] || gaps[0] != "" ==> LayOut(gaps, words) != "" ==> IsWhitespace(LayOut(gaps, words)[0])
  {
    if gaps[0] != "" { assert gaps[0][0] in gaps[0]; }
  }

  /** And every text is such a layout of its words. */
  lemma {:induction false} TextIsLayout(s: string) returns (gaps: seq<string>)
    ensures IsLayout(gaps, Words(s)) && LayOut(gaps, Words(s)) == s
    decreases |s|
  {
    hide Words, Span, LayOut, IsLayout, NoneWhite, AllWhite;
    if s == "" {
      gaps := [""];
      NothingIsLayout();
    } else if IsWhitespace(s[0]) {
      var rest := TextIsLayout(s[1..]);
      OneIsWhite(s);
      WordsSkipWhite(s[..1], s[1..]);
      gaps := MoreGap(s[..1], rest, Words(s[1..]));
    } else {
      var n := Span(s, false);
      SpanIsPiece(s);
      var rest := TextIsLayout(s[n..]);
      assert s[..n] + s[n..] == s;
      FirstWord(s[..n], s[n..]);
      MoreWord(s[..n], rest, Words(s[n..]), s[n..]);
      gaps := [""] + rest;
    }
  }

  lemma NothingIsLayout()
    ensures IsLayout([""], Words("")) && LayOut([""], Words("")) == ""
  {
  }

  lemma OneIsWhite(s: string)
    requires s != "" && IsWhitespace(s[0])
    ensures AllWhite(s[..1]) && s == s[..1] + s[1..]
  {
  }

  lemma SpanIsPiece(s: string)
    requires s != "" && !IsWhitespace(s[0])
    ensures var n := Span(s, false); n > 0 && NoneWhite(s[..n]) && (n < |s| ==> IsWhitespace(s[n]))
  {
  }

  lemma MoreGap(gap: string, gaps: seq<string>, words: seq<string>) returns (more: seq<string>)
    requires AllWhite(gap) && IsLayout(gaps, words)
    ensures IsLayout(more, words) && LayOut(more, words) == gap + LayOut(gaps, words)
  {
    more := [gap + gaps[0]] + gaps[1..];
    forall i | 0 <= i < |more| ensures AllWhite(more[i]) && (0 < i < |words| ==> more[i] != "") {
      if i > 0 { assert more[i] == gaps[i]; } else { assert AllWhite(gaps[0]); }
    }
    assert more[1..] == gaps[1..];
    if words != [] { ConcatAssociates(gap, gaps[0], words[0] + LayOut(gaps[1..], words[1..])); }
  }

  lemma MoreWord(word: string, gaps: seq<string>, words: seq<string>, rest: string)
    requires word != "" && NoneWhite(word) && IsLayout(gaps, words) && LayOut(gaps, words) == rest
    requires rest != "" ==> IsWhitespace(rest[0])
    ensures IsLayout([""] + gaps, [word] + words) && LayOut([""] + gaps, [word] + words) == word + rest
  {
    var more, all := [""] + gaps, [word] + words;
    assert more[1..] == gaps && all[1..] == words;
    assert "" + (word + rest) == word + rest;
    forall i | 0 <= i < |more| ensures AllWhite(more[i]) && (0 < i < |all| ==> more[i] != "") {
      if i > 0 { assert more[i] == gaps[i - 1]; }
    }
    forall i | 0 <= i < |all| ensures all[i] != "" && NoneWhite(all[i]) {
      if i > 0 { assert all[i] == words[i - 1]; }
    }
  }

  /** A piece with whitespace or nothing on either side is a word of the text, between the words before and behind it. */
  lemma {:induction false} WordsAround(a: string, piece: string, b: string)
    requires piece != "" && NoneWhite(piece)
    requires (a != "" ==> IsWhitespace(Last(a))) && (b != "" ==> IsWhitespace(b[0]))
    ensures Words(a + piece + b) == Words(a) + [piece] + Words(b)
    decreases |a|
  {
    hide *;
    if a == "" {
      AroundNothing(piece, b);
    } else if IsWhitespace(a[0]) {
      assert a[1..] != "" ==> Last(a[1..]) == Last(a) by { LastOfSuffix(a, 1); }
      WordsAround(a[1..], piece, b);
      AroundGap(a, piece, b);
    } else {
      SpanIsPiece(a);
      var n := Span(a, false);
      LastOfSuffix(a, n);
      NotAllPiece(a, n);
      WordsAround(a[n..], piece, b);
      AroundWord(a, n, piece, b);
    }
  }

  lemma LastOfSuffix(a: string, n: nat)
    requires n <= |a|
    ensures n < |a| ==> Last(a[n..]) == Last(a)
  {
  }

  lemma NotAllPiece(a: string, n: nat)
    requires 0 < n <= |a| && NoneWhite(a[..n]) && IsWhitespace(Last(a))
    ensures n < |a|
  {
    var word := a[..n];
    assert Last(a) !in word && word[n - 1] in word;
  }

  lemma AroundNothing(piece: string, b: string)
    requires piece != "" && NoneWhite(piece) && (b != "" ==> IsWhitespace(b[0]))
    ensures Words("" + piece + b) == Words("") + [piece] + Words(b)
  {
    assert Words("") == [];
    hide *;
    FirstWord(piece, b);
    EmptyFirst(piece, b);
    EmptyFirst([piece], Words(b));
  }

  lemma EmptyFirst<T>(b: seq<T>, c: seq<T>)
    ensures [] + b + c == b + c
  {
    assert [] + b == b;
  }

  lemma AroundGap(a: string, piece: string, b: string)
    requires a != "" && IsWhitespace(a[0]) && Words(a[1..] + piece + b) == Words(a[1..]) + [piece] + Words(b)
    ensures Words(a + piece + b) == Words(a) + [piece] + Words(b)
  {
    OneIsWhite(a);
    hide *;
    ThreeParts(a[..1], a[1..], piece, b);
    WordsSkipWhite(a[..1], a[1..]);
    WordsSkipWhite(a[..1], a[1..] + piece + b);
  }

  lemma AroundWord(a: string, n: nat, piece: string, b: string)
    requires 0 < n < |a| && NoneWhite(a[..n]) && IsWhitespace(a[n])
    requires Words(a[n..] + piece + b) == Words(a[n..]) + [piece] + Words(b)
    ensures Words(a + piece + b) == Words(a) + [piece] + Words(b)
  {
    hide *;
    var word, rest := a[..n], a[n..];
    assert a == word + rest;
    ThreeParts(word, rest, piece, b);
    assert (rest + piece + b)[0] == a[n];
    FirstWord(word, rest);
    FirstWord(word, rest + piece + b);
    ThreeParts([word], Words(rest), [piece], Words(b));
  }

  lemma ThreeParts<T>(a: seq<T>, b: seq<T>, c: seq<T>, d: seq<T>)
    ensures a + (b + c + d) == (a + b) + c + d
  {
  }

  function Digit(d: nat): char
    requires d < 10
  {
    ['0', '1', '2', '3', '4', '5', '6', '7', '8', '9'][d]
  }

  function Decimal(n: nat): (s: string)
    ensures s != ""
  {
    if n < 10 then [Digit(n)] else Decimal(n / 10) + [Digit(n % 10)]
  }

  lemma {:induction false} DecimalIsInjective(n: nat, m: nat)
    requires Decimal(n) == Decimal(m)
    ensures n == m
  {
    var d := Decimal(n);
    assert Last(d) == Digit(n % 10) == Digit(m % 10);
    assert n % 10 == m % 10;
    if n >= 10 && m >= 10 {
      assert Init(d) == Decimal(n / 10) == Decimal(m / 10);
      DecimalIsInjective(n / 10, m / 10);
    }
  }
}
