/** What exactly is redacted, in terms of the characters of a token. */
module RedactorExact {
  import opened Seqs
  import opened Text
  import opened Redactor
  import opened RedactorSafety

  // ---- emails ----

  const PUNCTUATION := ".,;:!?)"

  /**
   * The token is local@domain and trailing punctuation: both parts non-empty and without '@', the domain with a
   * dot in it but not at either end.
   */
  ghost predicate EmailParts(t: string, local: string, domain: string, tail: string) {
    && t == local + (['@'] + domain) + tail
    && local != "" && '@' !in local
    && domain != "" && '@' !in domain && '.' in domain && domain[0] != '.' && Last(domain) !in PUNCTUATION
    && forall c :: c in tail ==> c in PUNCTUATION
  }

  lemma TrimsPunctuation(c: char)
    ensures TrimsOff(c) <==> c in PUNCTUATION
  {
  }

  lemma EmailTokenHasParts(t: string) returns (local: string, domain: string, tail: string)
    requires IsEmailToken(t)
    ensures EmailParts(t, local, domain, tail)
  {
    hide TrimEnd, IndexOf, TrimsOff;
    var d := TrimEnd(t);
    var i := IndexOf('@', d);
    local, domain, tail := d[..i], d[i + 1..], t[|d|..];
    assert d == local + (['@'] + domain) && t == d + tail;
    TrimsPunctuation(Last(d));
    assert Last(domain) == Last(d);
    forall c | c in tail ensures c in PUNCTUATION {
      var k :| 0 <= k < |tail| && tail[k] == c;
      assert t[|d| + k] == c;
      TrimsPunctuation(c);
    }
  }

  lemma {:induction false} TrimEndOf(x: string, tail: string)
    requires x != "" && !TrimsOff(Last(x)) && forall i :: 0 <= i < |tail| ==> TrimsOff(tail[i])
    ensures TrimEnd(x + tail) == x
  {
    if tail == "" {
      assert x + tail == x;
    } else {
      assert Init(x + tail) == x + Init(tail) && Last(x + tail) == Last(tail);
      TrimEndOf(x, Init(tail));
    }
  }

  lemma PartsAreEmailToken(t: string, local: string, domain: string, tail: string)
    requires EmailParts(t, local, domain, tail)
    ensures IsEmailToken(t) && t[|TrimEnd(t)|..] == tail
  {
    var x := local + (['@'] + domain);
    TrimsPunctuation(Last(domain));
    assert Last(x) == Last(domain);
    forall i | 0 <= i < |tail| ensures TrimsOff(tail[i]) { TrimsPunctuation(tail[i]); }
    TrimEndOf(x, tail);
    IndexUnique('@', local, domain);
    assert x[|local| + 1..] == domain;
  }

  /** Exactly such a token is taken for an email. */
  lemma EmailTokenIff(t: string)
    ensures IsEmailToken(t) <==> exists local, domain, tail :: EmailParts(t, local, domain, tail)
  {
    if IsEmailToken(t) {
      var local, domain, tail := EmailTokenHasParts(t);
    } else {
      forall local, domain, tail | EmailParts(t, local, domain, tail) ensures false {
        PartsAreEmailToken(t, local, domain, tail);
      }
    }
  }

  /** What replaces it is the marker and the punctuation behind it. */
  lemma EmailIsReplaced(t: string, local: string, domain: string, tail: string)
    requires EmailParts(t, local, domain, tail) && !IsWhitespace(t[0])
    ensures RedactToken(t) == "[redacted-email]" + tail && TokenChanges(t)
  {
    PartsAreEmailToken(t, local, domain, tail);
  }

  // ---- digit runs ----

  function DigitsOf(s: string): string { Filter((c: char) => '0' <= c <= '9', s) }

  lemma {:induction false} CountIsDigits(s: string)
    ensures CountDigits(s) == |DigitsOf(s)|
  {
    if s != "" { CountIsDigits(s[1..]); }
  }

  /** A digit, and from it on digits and dashes only, eight digits among them. */
  ghost predicate RunAt(t: string, i: nat, j: nat) {
    && i < j <= |t| && '0' <= t[i] <= '9'
    && (forall k :: i <= k < j ==> '0' <= t[k] <= '9' || t[k] == '-')
    && |DigitsOf(t[i..j])| >= 8
  }

  /** The first j characters continue a run of n digits to eight or more. */
  ghost predicate Continues(t: string, j: nat, n: nat) {
    && j <= |t| && (forall k :: 0 <= k < j ==> '0' <= t[k] <= '9' || t[k] == '-')
    && n + CountDigits(t[..j]) >= 8
  }

  lemma ContinuesTail(t: string, j: nat, n: nat)
    requires t != "" && ('0' <= t[0] <= '9' || t[0] == '-')
    ensures Continues(t[1..], j, if IsAsciiDigit(t[0]) then n + 1 else n) ==> Continues(t, j + 1, n)
    ensures j > 0 && Continues(t, j, n) ==> Continues(t[1..], j - 1, if IsAsciiDigit(t[0]) then n + 1 else n)
  {
    if j < |t| { assert t[..j + 1][1..] == t[1..][..j]; }
    if 0 < j <= |t| { assert t[..j][1..] == t[1..][..j - 1]; }
    forall k | 0 <= k < |t[1..]| ensures t[1..][k] == t[k + 1] {}
  }

  lemma RunTail(t: string, i: nat, j: nat)
    requires t != ""
    ensures RunAt(t[1..], i, j) <==> RunAt(t, i + 1, j + 1)
  {
    if i < j <= |t[1..]| {
      assert t == [t[0]] + t[1..];
      assert t[i + 1..j + 1] == t[1..][i..j];
      forall k | i <= k < j ensures t[1..][k] == t[k + 1] {}
      if RunAt(t, i + 1, j + 1) {
        forall k | i <= k < j ensures '0' <= t[1..][k] <= '9' || t[1..][k] == '-' { assert t[1..][k] == t[k + 1]; }
      }
      if RunAt(t[1..], i, j) {
        forall k | i + 1 <= k < j + 1 ensures '0' <= t[k] <= '9' || t[k] == '-' { assert t[1..][k - 1] == t[k]; }
      }
    }
  }

  lemma StartsRun(t: string, j: nat)
    requires t != "" && IsAsciiDigit(t[0]) && Continues(t[1..], j, 1)
    ensures RunAt(t, 0, j + 1)
  {
    ContinuesTail(t, j, 0);
    CountIsDigits(t[..j + 1]);
    assert t[0..j + 1] == t[..j + 1];
  }

  ghost predicate HasRun(t: string) { exists i: nat, j: nat :: RunAt(t, i, j) }

  ghost predicate Continued(t: string, n: nat) { exists j: nat :: Continues(t, j, n) }

  lemma {:induction false} LongFromFinds(t: string, inRun: bool, n: nat)
    requires LongFrom(t, inRun, n) && (!inRun ==> n == 0)
    ensures HasRun(t) || (inRun && Continued(t, n))
  {
    if t == "" {
      assert Continues(t, 0, n);
    } else if IsAsciiDigit(t[0]) {
      LongFromFinds(t[1..], true, n + 1);
      if !HasRun(t[1..]) {
        var j: nat :| Continues(t[1..], j, n + 1);
        ContinuesTail(t, j, n);
        if !inRun { StartsRun(t, j); }
      } else {
        TailHasRun(t);
      }
    } else if t[0] == '-' && inRun {
      LongFromFinds(t[1..], true, n);
      if !HasRun(t[1..]) {
        var j: nat :| Continues(t[1..], j, n);
        ContinuesTail(t, j, n);
      } else {
        TailHasRun(t);
      }
    } else if n >= 8 {
      assert Continues(t, 0, n);
    } else {
      LongFromFinds(t[1..], false, 0);
      TailHasRun(t);
    }
  }

  lemma TailHasRun(t: string)
    requires t != "" && HasRun(t[1..])
    ensures HasRun(t)
  {
    var i: nat, j: nat :| RunAt(t[1..], i, j);
    RunTail(t, i, j);
  }

  lemma {:induction false} ContinuedIsLong(t: string, j: nat, inRun: bool, n: nat)
    requires Continues(t, j, n) && (inRun || j == 0 || IsAsciiDigit(t[0]))
    ensures LongFrom(t, inRun, n)
    decreases |t|
  {
    if j == 0 {
      DigitsMakeLongRun(t, 0, inRun, n);
    } else {
      ContinuesTail(t, j, n);
      if IsAsciiDigit(t[0]) {
        ContinuedIsLong(t[1..], j - 1, true, n + 1);
      } else {
        ContinuedIsLong(t[1..], j - 1, true, n);
      }
    }
  }

  lemma {:induction false} RunIsLong(t: string, i: nat, j: nat, inRun: bool, n: nat)
    requires RunAt(t, i, j)
    ensures LongFrom(t, inRun, n)
    decreases |t|
  {
    if i == 0 {
      CountIsDigits(t[..j]);
      assert t[0..j] == t[..j];
      ContinuedIsLong(t, j, inRun, n);
    } else {
      RunTail(t, i - 1, j - 1);
      if IsAsciiDigit(t[0]) {
        RunIsLong(t[1..], i - 1, j - 1, true, n + 1);
      } else if t[0] == '-' && inRun {
        RunIsLong(t[1..], i - 1, j - 1, true, n);
      } else {
        RunIsLong(t[1..], i - 1, j - 1, false, 0);
      }
    }
  }

  /** A token has a long run exactly if eight digits follow one another in it with only dashes between. */
  lemma LongRunIff(t: string)
    ensures HasLongRun(t) <==> HasRun(t)
  {
    if HasLongRun(t) { LongFromFinds(t, false, 0); }
    if HasRun(t) {
      var i: nat, j: nat :| RunAt(t, i, j);
      RunIsLong(t, i, j, false, 0);
    }
  }

  lemma {:induction false} NonDigitsPass(a: string, rest: string)
    requires DigitsOf(a) == ""
    ensures RedactRuns(a + rest) == a + RedactRuns(rest)
  {
    if a == "" {
      assert a + rest == rest && a + RedactRuns(rest) == RedactRuns(rest);
    } else {
      assert (a + rest)[0] == a[0] && (a + rest)[1..] == a[1..] + rest;
      NonDigitsPass(a[1..], rest);
      assert Flush([]) == [];
      assert [] + ([a[0]] + RedactRuns(a[1..] + rest)) == [a[0]] + RedactRuns(a[1..] + rest);
      hide RedactRuns, DigitsOf;
      assert [a[0]] + (a[1..] + RedactRuns(rest)) == a + RedactRuns(rest);
    }
  }

  lemma {:induction false} RunIsCollected(run: string, rest: string, before: string)
    requires forall c :: c in run ==> '0' <= c <= '9' || c == '-'
    requires before != "" || run == "" || '0' <= run[0] <= '9'
    ensures RunsFrom(run + rest, before) == RunsFrom(rest, before + run)
    decreases |run|
  {
    if run == "" {
      assert run + rest == rest && before + run == before;
    } else {
      assert (run + rest)[0] == run[0] && (run + rest)[1..] == run[1..] + rest;
      assert run[0] in run && forall c :: c in run[1..] ==> c in run;
      RunIsCollected(run[1..], rest, before + [run[0]]);
      assert before + [run[0]] + run[1..] == before + run;
    }
  }

  lemma RunEnds(run: string, b: string)
    requires b != "" ==> !('0' <= b[0] <= '9') && b[0] != '-'
    ensures RunsFrom(b, run) == Flush(run) + RedactRuns(b)
  {
    assert Flush([]) == [];
    if b == "" {
      assert Flush(run) + [] == Flush(run);
    } else {
      assert [] + ([b[0]] + RunsFrom(b[1..], [])) == [b[0]] + RunsFrom(b[1..], []);
    }
  }

  /**
   * What becomes of the digit runs, one after another: text without digits stays; a run goes on over digits and
   * dashes, and is replaced from eight digits on, keeping one trailing dash, and else stays.
   */
  lemma FirstRunDecides(a: string, run: string, b: string)
    requires DigitsOf(a) == ""
    requires run != "" && '0' <= run[0] <= '9' && forall c :: c in run ==> '0' <= c <= '9' || c == '-'
    requires b != "" ==> !('0' <= b[0] <= '9') && b[0] != '-'
    ensures RedactRuns(a + (run + b)) ==
      a + ((if |DigitsOf(run)| < 8 then run else "[redacted-number]" + if Last(run) == '-' then "-" else "") + RedactRuns(b))
  {
    NonDigitsPass(a, run + b);
    RunIsCollected(run, b, "");
    assert "" + run == run;
    RunEnds(run, b);
    CountIsDigits(run);
  }

  lemma NoRunNothingChanges(a: string)
    requires DigitsOf(a) == ""
    ensures RedactRuns(a) == a
  {
    NonDigitsPass(a, "");
    assert Flush([]) == [] && a + "" == a;
  }

  // ---- the text ----

  /** The token is to be redacted. */
  ghost predicate Sensitive(t: string) {
    && t != "" && !IsWhitespace(t[0])
    && ((exists local, domain, tail :: EmailParts(t, local, domain, tail)) || HasRun(t))
  }

  lemma SensitiveIff(t: string)
    requires t != ""
    ensures TokenChanges(t) <==> Sensitive(t)
  {
    EmailTokenIff(t);
    LongRunIff(t);
    hide IsEmailToken, HasLongRun, HasRun, EmailParts;
  }

  /** A change is reported exactly if some token of the text is an email or holds a long run. */
  lemma ChangesIff(content: string)
    ensures Changes(content) <==> exists k :: 0 <= k < |Tokens(content)| && Sensitive(Tokens(content)[k])
  {
    TokensAlternate(content);
    var ts := Tokens(content);
    AnySensitive(ts, |ts|);
  }

  lemma AnySensitive(ts: seq<string>, n: nat)
    requires Alternating(ts) && n <= |ts|
    ensures AnyChanges(ts, n) <==> exists k :: 0 <= k < n && Sensitive(ts[k])
  {
    hide TokenChanges, Sensitive;
    forall k | 0 <= k < n ensures TokenChanges(ts[k]) <==> Sensitive(ts[k]) {
      assert Uniform(ts[k]);
      SensitiveIff(ts[k]);
    }
    if k :| 0 <= k < n && Sensitive(ts[k]) {
      assert TokenChanges(ts[k]);
    }
  }

  /** Every token is found again in its place, unchanged unless it was to be redacted; so all whitespace stays. */
  lemma TokensStayUnlessSensitive(content: string, k: nat)
    ensures |Tokens(Redacted(content))| == |Tokens(content)|
    ensures k < |Tokens(content)| && !Sensitive(Tokens(content)[k]) ==> Tokens(Redacted(content))[k] == Tokens(content)[k]
  {
    RedactedTokens(content);
    TokensAlternate(content);
    var ts := Tokens(content);
    if k < |ts| {
      assert Uniform(ts[k]);
      SensitiveIff(ts[k]);
      hide Sensitive, TokenChanges, Tokens;
      if !TokenChanges(ts[k]) { UnchangedToken(ts[k]); }
    }
  }

  /** Redacted text holds no email among its tokens, no long run, and so no eight ASCII digits in a row. */
  lemma RedactedIsClean(content: string, k: nat, i: nat)
    ensures k < |Tokens(Redacted(content))| ==> !Sensitive(Tokens(Redacted(content))[k])
    ensures !EightDigitsAt(Redacted(content), i)
  {
    TokensAlternate(content);
    RedactedTokens(content);
    var rs := RedactAll(Tokens(content));
    RedactAllAlternates(Tokens(content));
    if k < |rs| {
      assert Uniform(rs[k]);
      SensitiveIff(rs[k]);
    }
    hide Sensitive, TokenChanges, IsEmailToken;
    if EightDigitsAt(Redacted(content), i) {
      DigitsInOneToken(rs, i);
      var n, j :| 0 <= n < |rs| && EightDigitsAt(rs[n], j);
      WhiteOrDigits(rs[n], j);
      EightDigitsChange(rs[n], j);
    }
  }

  lemma EightDigitsChange(t: string, j: nat)
    requires EightDigitsAt(t, j) && !IsWhitespace(t[0])
    ensures TokenChanges(t)
  {
    EightDigitsAreLong(t, j, false, 0);
  }
}
