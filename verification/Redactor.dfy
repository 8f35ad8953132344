/** The PII redactor: email-shaped tokens and long digit runs are replaced. */
module Redactor {
  import opened Seqs
  import opened Text

  const MIN_DIGIT_RUN: nat := 8
  const EMAIL := "[redacted-email]"
  const NUMBER := "[redacted-number]"

  // ---- tokens ----

  /** Alternating whitespace and non-whitespace pieces. */
  function Tokens(s: string): seq<string>
    decreases |s|
  {
    if s == [] then [] else
      var n := Span(s, IsWhitespace(s[0]));
      assert n > 0;
      [s[..n]] + Tokens(s[n..])
  }

  predicate Uniform(t: string) {
    t != [] && forall i :: 0 <= i < |t| ==> IsWhitespace(t[i]) == IsWhitespace(t[0])
  }

  predicate Alternating(ts: seq<string>) {
    && (forall i :: 0 <= i < |ts| ==> Uniform(ts[i]))
    && (forall i :: 0 <= i < |ts| - 1 ==> IsWhitespace(ts[i][0]) != IsWhitespace(ts[i + 1][0]))
  }

  lemma {:induction false} TokensJoin(s: string)
    ensures Flatten(Tokens(s)) == s
    decreases |s|
  {
    if s != [] {
      var n := Span(s, IsWhitespace(s[0]));
      TokensJoin(s[n..]);
      assert s[..n] + s[n..] == s;
    }
  }

  lemma AlternatingCons(t: string, ts: seq<string>)
    requires Uniform(t) && Alternating(ts)
    requires ts != [] ==> IsWhitespace(ts[0][0]) != IsWhitespace(t[0])
    ensures Alternating([t] + ts)
  {
  }

  lemma {:induction false} TokensAlternate(s: string)
    ensures Alternating(Tokens(s))
    ensures s != [] ==> Tokens(s) != [] && Tokens(s)[0] != [] && Tokens(s)[0][0] == s[0]
    decreases |s|
  {
    if s != [] {
      var n := Span(s, IsWhitespace(s[0]));
      TokensAlternate(s[n..]);
      AlternatingCons(s[..n], Tokens(s[n..]));
    }
  }

  lemma {:induction false} SpanOfToken(t: string, rest: string, white: bool)
    requires forall i :: 0 <= i < |t| ==> IsWhitespace(t[i]) == white
    requires rest != [] ==> IsWhitespace(rest[0]) != white
    ensures Span(t + rest, white) == |t|
  {
    if t == [] {
      assert t + rest == rest;
    } else {
      assert (t + rest)[1..] == t[1..] + rest;
      SpanOfToken(t[1..], rest, white);
    }
  }

  lemma FirstToken(t: string, rest: string)
    requires Uniform(t) && (rest != [] ==> IsWhitespace(rest[0]) != IsWhitespace(t[0]))
    ensures Tokens(t + rest) == [t] + Tokens(rest)
  {
    hide IsWhitespace, Span;
    SpanOfToken(t, rest, IsWhitespace(t[0]));
    assert (t + rest)[..|t|] == t && (t + rest)[|t|..] == rest;
  }

  /** Alternating pieces are found again in their concatenation. */
  lemma {:induction false} TokensAreUnique(ts: seq<string>)
    requires Alternating(ts)
    ensures Tokens(Flatten(ts)) == ts
  {
    if ts != [] {
      var t, rest := ts[0], Flatten(ts[1..]);
      if ts[1..] != [] { assert rest[0] == ts[1][0]; }
      assert Flatten(ts) == t + rest;
      TokensAreUnique(ts[1..]);
      hide Flatten, Tokens, IsWhitespace, Span;
      FirstToken(t, rest);
      assert [t] + ts[1..] == ts;
    }
  }

  // ---- digit runs ----

  function CountDigits(s: string): nat {
    if s == [] then 0 else (if IsAsciiDigit(s[0]) then 1 else 0) + CountDigits(s[1..])
  }

  /** A run starts with a digit and goes on over digits and dashes. */
  predicate Joins(c: char, run: string) { IsAsciiDigit(c) || (c == '-' && run != []) }

  /** A long run is replaced, keeping one trailing dash if it ends in any. */
  function Flush(run: string): string {
    if CountDigits(run) >= MIN_DIGIT_RUN then NUMBER + (if Last(run) == '-' then "-" else "") else run
  }

  function RunsFrom(t: string, run: string): string {
    if t == [] then Flush(run)
    else if Joins(t[0], run) then RunsFrom(t[1..], run + [t[0]])
    else Flush(run) + ([t[0]] + RunsFrom(t[1..], []))
  }

  /** Whether a run of at least the minimum length occurs, n digits into a run if inRun. */
  predicate LongFrom(t: string, inRun: bool, n: nat) {
    if t == [] then n >= MIN_DIGIT_RUN
    else if IsAsciiDigit(t[0]) then LongFrom(t[1..], true, n + 1)
    else if t[0] == '-' && inRun then LongFrom(t[1..], true, n)
    else n >= MIN_DIGIT_RUN || LongFrom(t[1..], false, 0)
  }

  function RedactRuns(t: string): string { RunsFrom(t, []) }

  predicate HasLongRun(t: string) { LongFrom(t, false, 0) }

  lemma {:induction false} CountConcat(a: string, b: string)
    ensures CountDigits(a + b) == CountDigits(a) + CountDigits(b)
  {
    if a == [] {
      assert a + b == b;
    } else {
      assert (a + b)[1..] == a[1..] + b;
      CountConcat(a[1..], b);
    }
  }

  /** What one character does to the run buffer. */
  lemma RunStep(t: string, run: string)
    requires t != []
    ensures RunsFrom(t, run) ==
      if Joins(t[0], run) then RunsFrom(t[1..], run + [t[0]]) else Flush(run) + ([t[0]] + RunsFrom(t[1..], []))
    ensures LongFrom(t, run != [], CountDigits(run)) ==
      if Joins(t[0], run) then LongFrom(t[1..], run + [t[0]] != [], CountDigits(run + [t[0]]))
      else CountDigits(run) >= MIN_DIGIT_RUN || LongFrom(t[1..], false, 0)
  {
    if Joins(t[0], run) {
      CountConcat(run, [t[0]]);
      assert [t[0]][1..] == [];
    }
  }

  method RedactDigitRuns(token: string) returns (out: string, changed: bool)
    ensures out == RedactRuns(token) && changed == HasLongRun(token)
  {
    out, changed := [], false;
    var run: string := [];
    var i := 0;
    assert token[0..] == token && CountDigits([]) == 0;
    assert [] + RunsFrom(token, []) == RunsFrom(token, []);
    assert forall r :: RunsFrom([], r) == Flush(r) && (LongFrom([], r != [], CountDigits(r)) <==> CountDigits(r) >= MIN_DIGIT_RUN);
    hide RunsFrom, LongFrom, CountDigits, Flush;
    while i < |token|
      invariant 0 <= i <= |token|
      invariant out + RunsFrom(token[i..], run) == RedactRuns(token)
      invariant HasLongRun(token) == (changed || LongFrom(token[i..], run != [], CountDigits(run)))
    {
      var c := token[i];
      assert token[i..][1..] == token[i + 1..];
      RunStep(token[i..], run);
      if Joins(c, run) {
        run := run + [c];
      } else {
        var flushed := Flush(run);
        ConcatAssociates(out, flushed, [c] + RunsFrom(token[i + 1..], []));
        AppendThenConcat(out + flushed, c, RunsFrom(token[i + 1..], []));
        changed := changed || CountDigits(run) >= MIN_DIGIT_RUN;
        out := out + flushed + [c];
        run := [];
      }
      i := i + 1;
    }
    assert token[i..] == [];
    changed := changed || CountDigits(run) >= MIN_DIGIT_RUN;
    out := out + Flush(run);
  }

  // ---- email shape ----

  predicate TrimsOff(c: char) { c in {'.', ',', ';', ':', '!', '?', ')'} }

  function TrimEnd(s: string): (t: string)
    ensures |t| <= |s| && t == s[..|t|]
    ensures t != [] ==> !TrimsOff(Last(t))
    ensures forall i :: |t| <= i < |s| ==> TrimsOff(s[i])
  {
    if s == [] || !TrimsOff(Last(s)) then s else TrimEnd(Init(s))
  }

  function IndexOf(c: char, s: string): (i: nat)
    ensures i <= |s| && c !in s[..i] && (i < |s| ==> s[i] == c)
  {
    if s == [] || s[0] == c then 0 else
      var i := IndexOf(c, s[1..]) + 1;
      assert s[..i] == [s[0]] + s[1..][..i - 1];
      i
  }

  predicate DomainShape(d: string) {
    d != [] && '@' !in d && '.' in d && d[0] != '.' && Last(d) != '.'
  }

  predicate LooksLikeEmail(s: string) {
    var i := IndexOf('@', s);
    i < |s| && i > 0 && DomainShape(s[i + 1..])
  }

  // ---- one token ----

  predicate IsEmailToken(t: string) { LooksLikeEmail(TrimEnd(t)) }

  function RedactToken(t: string): string {
    if t != [] && IsWhitespace(t[0]) then t
    else if IsEmailToken(t) then EMAIL + t[|TrimEnd(t)|..]
    else RedactRuns(t)
  }

  predicate TokenChanges(t: string) {
    !(t != [] && IsWhitespace(t[0])) && (IsEmailToken(t) || HasLongRun(t))
  }

  function RedactAll(ts: seq<string>): (r: seq<string>)
    ensures |r| == |ts| && forall i :: 0 <= i < |ts| ==> r[i] == RedactToken(ts[i])
  {
    if ts == [] then [] else [RedactToken(ts[0])] + RedactAll(ts[1..])
  }

  function Redacted(content: string): string { Flatten(RedactAll(Tokens(content))) }

  /** One of the first k tokens needs redacting. */
  predicate AnyChanges(ts: seq<string>, k: nat)
    requires k <= |ts|
  {
    exists i :: 0 <= i < k && TokenChanges(ts[i])
  }

  predicate Changes(content: string) { AnyChanges(Tokens(content), |Tokens(content)|) }

  lemma AnyChangesNext(ts: seq<string>, k: nat)
    requires k < |ts|
    ensures AnyChanges(ts, k + 1) <==> AnyChanges(ts, k) || TokenChanges(ts[k])
  {
  }

  lemma RedactAllSnoc(ts: seq<string>, t: string)
    ensures RedactAll(ts + [t]) == RedactAll(ts) + [RedactToken(t)]
  {
  }

  /** The next token, read off the front of the rest. */
  lemma NextToken(ts: seq<string>, k: nat, rest: string)
    requires k <= |ts| && ts[k..] == Tokens(rest) && rest != []
    ensures var n := Span(rest, IsWhitespace(rest[0]));
      && n > 0 && k < |ts| && ts[k] == rest[..n] && ts[k + 1..] == Tokens(rest[n..])
      && ts[..k + 1] == ts[..k] + [rest[..n]]
  {
    assert ts[k..][0] == ts[k] && ts[k..][1..] == ts[k + 1..];
  }

  lemma RedactedSnoc(ts: seq<string>, t: string)
    ensures Flatten(RedactAll(ts + [t])) == Flatten(RedactAll(ts)) + RedactToken(t)
  {
    var piece := RedactToken(t);
    assert [piece][1..] == [] && piece + [] == piece;
    RedactAllSnoc(ts, t);
    hide RedactAll, RedactToken;
    FlattenConcat(RedactAll(ts), [piece]);
  }

  /** The redacted text, or nothing when no token needed redacting. */
  method Redact(content: string) returns (r: Option<string>)
    ensures r == if Changes(content) then Some(Redacted(content)) else None
  {
    var out: string := [];
    var changed := false;
    ghost var ts := Tokens(content);
    ghost var k := 0;
    var rest := content;
    assert ts[0..] == ts;
    assert Flatten(RedactAll([])) == [] && Tokens([]) == [];
    assert !AnyChanges(ts, 0);
    hide Tokens, Flatten, RedactAll, RedactToken, TokenChanges, IsWhitespace, AnyChanges;
    while rest != []
      invariant 0 <= k <= |ts| && ts[k..] == Tokens(rest)
      invariant out == Flatten(RedactAll(ts[..k]))
      invariant changed == AnyChanges(ts, k)
      decreases |rest|
    {
      var n := Span(rest, IsWhitespace(rest[0]));
      var token := rest[..n];
      NextToken(ts, k, rest);
      RedactedSnoc(ts[..k], token);
      AnyChangesNext(ts, k);
      var piece, pieceChanged := RedactOne(token);
      out := out + piece;
      changed := changed || pieceChanged;
      rest := rest[n..];
      k := k + 1;
    }
    assert ts[..k] == ts;
    r := if changed then Some(out) else None;
  }

  method RedactOne(token: string) returns (out: string, changed: bool)
    requires token != []
    ensures out == RedactToken(token) && changed == TokenChanges(token)
  {
    if IsWhitespace(token[0]) { return token, false; }
    var trimmed := TrimEnd(token);
    if LooksLikeEmail(trimmed) {
      return EMAIL + token[|trimmed|..], true;
    }
    out, changed := RedactDigitRuns(token);
  }
}
