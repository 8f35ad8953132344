/** What redacted text contains, and that a second pass finds nothing more. */
module RedactorSafety {
  import opened Seqs
  import opened Text
  import opened Redactor

  // ---- digit runs ----

  lemma {:induction false} FewDigitsNoLongRun(t: string, inRun: bool, n: nat)
    requires CountDigits(t) + n < MIN_DIGIT_RUN
    ensures !LongFrom(t, inRun, n)
  {
    if t != [] {
      if IsAsciiDigit(t[0]) {
        FewDigitsNoLongRun(t[1..], true, n + 1);
      } else if t[0] == '-' && inRun {
        FewDigitsNoLongRun(t[1..], true, n);
      } else {
        FewDigitsNoLongRun(t[1..], false, 0);
      }
    }
  }

  lemma {:induction false} NoDigits(t: string)
    requires forall c :: c in t ==> !IsAsciiDigit(c)
    ensures CountDigits(t) == 0 && !HasLongRun(t)
  {
    if t != [] {
      assert t[0] in t;
      assert forall c :: c in t[1..] ==> c in t;
      NoDigits(t[1..]);
    }
    FewDigitsNoLongRun(t, false, 0);
  }

  /** What a run is flushed to holds no long run. */
  lemma FlushedHasNoLongRun(run: string)
    ensures !HasLongRun(Flush(run))
  {
    if CountDigits(run) >= MIN_DIGIT_RUN {
      NoDigits(Flush(run));
    } else {
      FewDigitsNoLongRun(run, false, 0);
    }
  }

  /** A character that cannot continue a run separates the runs before it from those after it. */
  lemma {:induction false} BreakSeparates(a: string, c: char, b: string, inRun: bool, n: nat)
    requires !IsAsciiDigit(c) && (c != '-' || (a == [] && !inRun))
    ensures LongFrom(a + ([c] + b), inRun, n) <==> LongFrom(a, inRun, n) || HasLongRun(b)
    decreases |a|
  {
    if a == [] {
      assert a + ([c] + b) == [c] + b;
      assert ([c] + b)[1..] == b;
    } else {
      assert (a + ([c] + b))[1..] == a[1..] + ([c] + b);
      assert (a + ([c] + b))[0] == a[0];
      if IsAsciiDigit(a[0]) {
        BreakSeparates(a[1..], c, b, true, n + 1);
      } else if a[0] == '-' && inRun {
        BreakSeparates(a[1..], c, b, true, n);
      } else {
        BreakSeparates(a[1..], c, b, false, 0);
      }
    }
  }

  lemma {:induction false} RunsAreGone(t: string, run: string)
    ensures !HasLongRun(RunsFrom(t, run))
  {
    if t == [] {
      FlushedHasNoLongRun(run);
    } else if Joins(t[0], run) {
      RunsAreGone(t[1..], run + [t[0]]);
    } else {
      RunsAreGone(t[1..], []);
      FlushedHasNoLongRun(run);
      BreakSeparates(Flush(run), t[0], RunsFrom(t[1..], []), false, 0);
    }
  }

  lemma {:induction false} ShortRunsStay(t: string, run: string)
    requires !LongFrom(t, run != [], CountDigits(run))
    ensures RunsFrom(t, run) == run + t
  {
    if t == [] {
      assert run + t == run;
    } else if Joins(t[0], run) {
      CountConcat(run, [t[0]]);
      assert [t[0]][1..] == [];
      ShortRunsStay(t[1..], run + [t[0]]);
      assert run + [t[0]] + t[1..] == run + t;
    } else {
      assert CountDigits(run) < MIN_DIGIT_RUN by { NotLongBreak(t, run); }
      ShortRunsStay(t[1..], []);
      assert run + ([t[0]] + ([] + t[1..])) == run + t;
    }
  }

  lemma NotLongBreak(t: string, run: string)
    requires t != [] && !Joins(t[0], run) && !LongFrom(t, run != [], CountDigits(run))
    ensures CountDigits(run) < MIN_DIGIT_RUN && !HasLongRun(t[1..])
  {
  }

  /** Eight ASCII digits in a row. */
  predicate EightDigitsAt(s: string, i: nat) {
    i + 8 <= |s| && forall k :: i <= k < i + 8 ==> IsAsciiDigit(s[k])
  }

  lemma {:induction false} DigitsMakeLongRun(s: string, m: nat, inRun: bool, n: nat)
    requires m <= |s| && m + n >= MIN_DIGIT_RUN && forall k :: 0 <= k < m ==> IsAsciiDigit(s[k])
    ensures LongFrom(s, inRun, n)
    decreases |s|
  {
    if s != [] {
      if IsAsciiDigit(s[0]) {
        DigitsMakeLongRun(s[1..], if m == 0 then 0 else m - 1, true, n + 1);
      } else if s[0] == '-' && inRun {
        DigitsMakeLongRun(s[1..], 0, true, n);
      }
    }
  }

  lemma {:induction false} EightDigitsAreLong(s: string, i: nat, inRun: bool, n: nat)
    requires EightDigitsAt(s, i)
    ensures LongFrom(s, inRun, n)
    decreases |s|
  {
    if i == 0 {
      DigitsMakeLongRun(s, 8, inRun, n);
    } else {
      assert EightDigitsAt(s[1..], i - 1);
      if IsAsciiDigit(s[0]) {
        EightDigitsAreLong(s[1..], i - 1, true, n + 1);
      } else if s[0] == '-' && inRun {
        EightDigitsAreLong(s[1..], i - 1, true, n);
      } else {
        EightDigitsAreLong(s[1..], i - 1, false, 0);
      }
    }
  }

  // ---- redaction of runs keeps every other character where it was ----

  /** Characters that neither belong to a run nor occur in the replacement text. */
  predicate Plain(c: char) { !IsAsciiDigit(c) && c != '-' && c !in NUMBER }

  predicate RunText(run: string) {
    run != [] ==> IsAsciiDigit(run[0]) && forall i :: 0 <= i < |run| ==> IsAsciiDigit(run[i]) || run[i] == '-'
  }

  lemma FlushShape(run: string)
    requires RunText(run)
    ensures Flush(run) == [] <==> run == []
    ensures forall c :: c in Flush(run) ==> !Plain(c) && !IsWhitespace(c)
  {
  }

  /** A plain character splits the work: what is before and after it is redacted separately. */
  lemma {:induction false} PlainSplits(a: string, c: char, b: string, run: string)
    requires Plain(c)
    ensures RunsFrom(a + ([c] + b), run) == RunsFrom(a, run) + ([c] + RedactRuns(b))
    decreases |a|
  {
    if a == [] {
      assert a + ([c] + b) == [c] + b;
      assert ([c] + b)[1..] == b;
    } else {
      var s := a + ([c] + b);
      assert s[1..] == a[1..] + ([c] + b) && s[0] == a[0];
      if Joins(a[0], run) {
        PlainSplits(a[1..], c, b, run + [a[0]]);
      } else {
        PlainSplits(a[1..], c, b, []);
        assert Flush(run) + ([a[0]] + (RunsFrom(a[1..], []) + ([c] + RedactRuns(b))))
            == (Flush(run) + ([a[0]] + RunsFrom(a[1..], []))) + ([c] + RedactRuns(b));
      }
    }
  }

  /** Plain characters, and whether the text is empty, are the same before and after. */
  lemma {:induction false} PlainKept(t: string, run: string, c: char)
    requires RunText(run)
    ensures Plain(c) ==> (c in RunsFrom(t, run) <==> c in t)
    ensures RunsFrom(t, run) == [] <==> t == [] && run == []
    ensures IsWhitespace(c) && c in RunsFrom(t, run) ==> c in t
  {
    FlushShape(run);
    if t != [] {
      if Joins(t[0], run) {
        PlainKept(t[1..], run + [t[0]], c);
        assert RunText(run + [t[0]]);
        assert t == [t[0]] + t[1..];
      } else {
        PlainKept(t[1..], [], c);
        assert t == [t[0]] + t[1..];
      }
    }
  }

  lemma {:induction false} LastPlainKept(t: string, run: string)
    requires RunText(run) && t != [] && RunsFrom(t, run) != []
    ensures Plain(Last(RunsFrom(t, run))) || Plain(Last(t)) ==> Last(RunsFrom(t, run)) == Last(t)
    decreases |t|
  {
    hide Flush, IsWhitespace;
    FlushShape(run);
    if Joins(t[0], run) {
      var longer := run + [t[0]];
      assert RunText(longer);
      if t[1..] == [] {
        FlushShape(longer);
        assert RunsFrom(t, run) == Flush(longer);
        assert Last(Flush(longer)) in Flush(longer);
      } else {
        LastPlainKept(t[1..], longer);
      }
    } else {
      var after := RunsFrom(t[1..], []);
      PlainKept(t[1..], [], '@');
      if t[1..] != [] { LastPlainKept(t[1..], []); }
    }
  }

  lemma FirstPlainKept(t: string)
    requires t != [] && RedactRuns(t) != []
    ensures Plain(RedactRuns(t)[0]) || Plain(t[0]) ==> RedactRuns(t)[0] == t[0]
  {
    assert Flush([]) == [];
    if Joins(t[0], []) {
      assert [] + [t[0]] == [t[0]];
      RunFirst(t[1..], [t[0]]);
    } else {
      assert RedactRuns(t) == [] + ([t[0]] + RunsFrom(t[1..], []));
    }
  }

  lemma {:induction false} RunFirst(t: string, run: string)
    requires RunText(run) && run != []
    ensures RunsFrom(t, run) != [] && !Plain(RunsFrom(t, run)[0])
  {
    FlushShape(run);
    if t == [] || !Joins(t[0], run) {
      assert Flush(run)[0] in Flush(run);
    } else {
      RunFirst(t[1..], run + [t[0]]);
    }
  }

  // ---- redaction of runs makes no email shape ----

  lemma {:induction false} TrimCommutes(t: string)
    ensures TrimEnd(RedactRuns(t)) == RedactRuns(TrimEnd(t))
    decreases |t|
  {
    hide RedactRuns;
    NothingToRedact(t);
    if t != [] {
      var c := Last(t);
      if TrimsOff(c) {
        var x := Init(t);
        assert t == x + [c];
        RedactRunsSnoc(x, c);
        assert Init(RedactRuns(t)) == RedactRuns(x);
        TrimCommutes(x);
      } else {
        LastKept(t);
      }
    }
  }

  lemma NothingToRedact(t: string)
    ensures RedactRuns(t) == [] <==> t == []
  {
    PlainKept(t, [], '@');
  }

  lemma LastKept(t: string)
    requires t != [] && RedactRuns(t) != [] && !TrimsOff(Last(t))
    ensures !TrimsOff(Last(RedactRuns(t)))
  {
    hide RunsFrom;
    LastPlainKept(t, []);
  }

  lemma RedactRunsSnoc(x: string, c: char)
    requires TrimsOff(c)
    ensures RedactRuns(x + [c]) == RedactRuns(x) + [c]
  {
    assert RedactRuns([]) == [];
    hide RunsFrom;
    PlainSplits(x, c, [], []);
    assert [c] + [] == [c];
  }

  lemma DomainShapeKept(d: string)
    ensures DomainShape(RedactRuns(d)) ==> DomainShape(d)
  {
    PlainKept(d, [], '@');
    PlainKept(d, [], '.');
    if d != [] {
      FirstPlainKept(d);
      LastPlainKept(d, []);
    }
  }

  lemma {:induction false} IndexUnique(c: char, a: string, b: string)
    requires c !in a
    ensures IndexOf(c, a + ([c] + b)) == |a|
  {
    if a == [] {
      assert a + ([c] + b) == [c] + b;
    } else {
      assert (a + ([c] + b))[1..] == a[1..] + ([c] + b);
      IndexUnique(c, a[1..], b);
    }
  }

  lemma EmailShapeKept(a: string)
    ensures LooksLikeEmail(RedactRuns(a)) ==> LooksLikeEmail(a)
  {
    var i := IndexOf('@', a);
    PlainKept(a, [], '@');
    if i == |a| {
      assert a[..i] == a;
      assert '@' !in RedactRuns(a);
    } else {
      var x, y := a[..i], a[i + 1..];
      assert a == x + (['@'] + y);
      PlainSplits(x, '@', y, []);
      PlainKept(x, [], '@');
      var rx, ry := RedactRuns(x), RedactRuns(y);
      IndexUnique('@', rx, ry);
      assert (rx + (['@'] + ry))[|rx| + 1..] == ry;
      DomainShapeKept(y);
    }
  }

  // ---- tokens ----

  /** A redacted token needs no further redaction and is neither empty nor of the other kind. */
  lemma RedactTokenSettles(t: string)
    requires Uniform(t)
    ensures var r := RedactToken(t);
      && !TokenChanges(r) && Uniform(r) && IsWhitespace(r[0]) == IsWhitespace(t[0])
      && !IsEmailToken(r)
  {
    if IsWhitespace(t[0]) {
      WhitespaceIsNoEmail(t);
    } else if IsEmailToken(t) {
      EmailReplacementSettles(t[|TrimEnd(t)|..], t);
    } else {
      RunsSettle(t);
    }
  }

  lemma WhitespaceIsNoEmail(t: string)
    requires Uniform(t) && IsWhitespace(t[0])
    ensures !IsEmailToken(t)
  {
    var d := TrimEnd(t);
    forall i | 0 <= i < |d| ensures d[i] != '@' { assert IsWhitespace(t[i]) == IsWhitespace(t[0]) && t[i] == d[i]; }
  }

  lemma MembersNotWhite(t: string, c: char)
    requires Uniform(t) && !IsWhitespace(t[0])
    ensures c in t ==> !IsWhitespace(c)
  {
  }

  lemma {:induction false} TrimOfReplacement(suffix: string)
    requires forall i :: 0 <= i < |suffix| ==> TrimsOff(suffix[i])
    ensures TrimEnd(EMAIL + suffix) == EMAIL
  {
    if suffix != [] {
      TrimOfReplacement(Init(suffix));
      assert Init(EMAIL + suffix) == EMAIL + Init(suffix);
    } else {
      assert EMAIL + suffix == EMAIL;
    }
  }

  lemma EmailTextIsHarmless(c: char)
    ensures c in EMAIL ==> c != '@' && !IsAsciiDigit(c) && !IsWhitespace(c)
  {
  }

  lemma ReplacementIsNoEmail()
    ensures !LooksLikeEmail(EMAIL)
  {
    EmailTextIsHarmless('@');
  }

  lemma CleanCharacter(suffix: string, t: string, i: nat)
    requires Uniform(t) && !IsWhitespace(t[0]) && suffix == t[|TrimEnd(t)|..] && i < |EMAIL + suffix|
    ensures !IsWhitespace((EMAIL + suffix)[i]) && !IsAsciiDigit((EMAIL + suffix)[i])
    ensures i < |suffix| ==> TrimsOff(suffix[i])
  {
    if i < |suffix| { assert suffix[i] == t[|TrimEnd(t)| + i]; }
    if i < |EMAIL| {
      EmailTextIsHarmless(EMAIL[i]);
    } else {
      var k := i - |EMAIL|;
      assert (EMAIL + suffix)[i] == suffix[k] == t[|TrimEnd(t)| + k];
    }
  }

  lemma EmailReplacementSettles(suffix: string, t: string)
    requires Uniform(t) && !IsWhitespace(t[0]) && suffix == t[|TrimEnd(t)|..]
    ensures var r := EMAIL + suffix;
      !IsEmailToken(r) && !HasLongRun(r) && Uniform(r) && !IsWhitespace(r[0])
  {
    hide HasLongRun, LooksLikeEmail, TrimEnd;
    var r := EMAIL + suffix;
    forall i | 0 <= i < |r|
      ensures !IsWhitespace(r[i]) && !IsAsciiDigit(r[i]) && (i < |suffix| ==> TrimsOff(suffix[i]))
    {
      CleanCharacter(suffix, t, i);
    }
    TrimOfReplacement(suffix);
    ReplacementIsNoEmail();
    NoDigits(r);
  }

  lemma RunsSettle(t: string)
    requires Uniform(t) && !IsWhitespace(t[0]) && !IsEmailToken(t)
    ensures var r := RedactRuns(t);
      !IsEmailToken(r) && !HasLongRun(r) && Uniform(r) && !IsWhitespace(r[0])
  {
    var r := RedactRuns(t);
    RunsAreGone(t, []);
    TrimCommutes(t);
    EmailShapeKept(TrimEnd(t));
    PlainKept(t, [], '@');
    forall i | 0 <= i < |r| ensures !IsWhitespace(r[i]) {
      PlainKept(t, [], r[i]);
      MembersNotWhite(t, r[i]);
    }
  }

  lemma RedactAllAlternates(ts: seq<string>)
    requires Alternating(ts)
    ensures Alternating(RedactAll(ts))
    ensures forall i :: 0 <= i < |ts| ==> !TokenChanges(RedactAll(ts)[i]) && !IsEmailToken(RedactAll(ts)[i])
  {
    forall i | 0 <= i < |ts|
      ensures Uniform(RedactAll(ts)[i]) && IsWhitespace(RedactAll(ts)[i][0]) == IsWhitespace(ts[i][0])
      ensures !TokenChanges(RedactAll(ts)[i]) && !IsEmailToken(RedactAll(ts)[i])
    {
      RedactTokenSettles(ts[i]);
    }
  }

  /** The tokens of the redacted text are the redacted tokens. */
  lemma RedactedTokens(content: string)
    ensures Tokens(Redacted(content)) == RedactAll(Tokens(content))
  {
    TokensAlternate(content);
    RedactAllAlternates(Tokens(content));
    TokensAreUnique(RedactAll(Tokens(content)));
  }

  // ---- the theorems ----

  /** A second pass over redacted text finds nothing to redact. */
  lemma RedactionIsIdempotent(content: string)
    ensures !Changes(Redacted(content))
  {
    TokensAlternate(content);
    RedactedTokens(content);
    RedactAllAlternates(Tokens(content));
  }

  lemma UnchangedToken(t: string)
    requires !TokenChanges(t)
    ensures RedactToken(t) == t
  {
    if !(t != [] && IsWhitespace(t[0])) {
      ShortRunsStay(t, []);
      assert [] + t == t;
    }
  }

  /** Reporting no change means the text was left alone. */
  lemma NoChangeMeansSameText(content: string)
    requires !Changes(content)
    ensures Redacted(content) == content
  {
    var ts := Tokens(content);
    forall i | 0 <= i < |ts| ensures RedactAll(ts)[i] == ts[i] { UnchangedToken(ts[i]); }
    assert RedactAll(ts) == ts;
    TokensJoin(content);
  }

  lemma {:induction false} DigitsInOneToken(ts: seq<string>, i: nat)
    requires Alternating(ts) && EightDigitsAt(Flatten(ts), i)
    ensures exists k, j :: 0 <= k < |ts| && EightDigitsAt(ts[k], j)
    decreases |ts|
  {
    if ts != [] {
      var t, rest := ts[0], Flatten(ts[1..]);
      var s := t + rest;
      if i + 8 <= |t| {
        forall k | i <= k < i + 8 ensures IsAsciiDigit(t[k]) { assert s[k] == t[k]; }
        assert EightDigitsAt(ts[0], i);
      } else if i >= |t| {
        forall k | i - |t| <= k < i - |t| + 8 ensures IsAsciiDigit(rest[k]) { assert s[k + |t|] == rest[k]; }
        DigitsInOneToken(ts[1..], i - |t|);
        var k, j :| 0 <= k < |ts[1..]| && EightDigitsAt(ts[1..][k], j);
        assert EightDigitsAt(ts[k + 1], j);
      } else {
        BoundaryIsNotDigits(ts, i);
      }
    }
  }

  lemma BoundaryIsNotDigits(ts: seq<string>, i: nat)
    requires Alternating(ts) && ts != [] && i < |ts[0]| < i + 8
    ensures !EightDigitsAt(Flatten(ts), i)
  {
    var t, rest := ts[0], Flatten(ts[1..]);
    var s := t + rest;
    if i + 8 <= |s| {
      assert rest[0] == ts[1][0];
      assert s[|t| - 1] == t[|t| - 1] && s[|t|] == rest[0];
      assert IsWhitespace(s[|t| - 1]) != IsWhitespace(s[|t|]);
    }
  }

  lemma WhiteOrDigits(t: string, j: nat)
    requires Uniform(t) && EightDigitsAt(t, j)
    ensures !IsWhitespace(t[0])
  {
    assert IsAsciiDigit(t[j]) && IsWhitespace(t[j]) == IsWhitespace(t[0]);
  }
}
