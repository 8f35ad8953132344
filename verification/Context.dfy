/** Token-budgeted compaction of an agent's message history. */
module Context {
  import opened Seqs

  datatype Role = System | User | Assistant | Tool

  datatype ToolCall = ToolCall(id: string, name: string, arguments: string)

  datatype Message = Message(
    role: Role, content: Option<string>, toolCalls: seq<ToolCall>,
    toolCallId: Option<string>, name: Option<string>)

  /** The prompt budget, the cost of the advertised tools, and the token counter. */
  datatype Budget = Budget(maxPromptTokens: nat, toolsOverhead: nat, count: Message -> nat)
  {
    function Tokens(msgs: seq<Message>): nat {
      if msgs == [] then 0 else count(msgs[0]) + Tokens(msgs[1..])
    }

    predicate Fits(msgs: seq<Message>) {
      toolsOverhead + Tokens(msgs) <= maxPromptTokens
    }
  }

  lemma {:induction false} TokensConcat(b: Budget, x: seq<Message>, y: seq<Message>)
    ensures b.Tokens(x + y) == b.Tokens(x) + b.Tokens(y)
  {
    if x == [] {
      assert x + y == y;
    } else {
      TokensConcat(b, x[1..], y);
      assert (x + y)[1..] == x[1..] + y;
    }
  }

  // ---- preamble and rounds ----

  /** Length of the leading system messages and the user message right after them, if any. */
  function PreambleLen(msgs: seq<Message>): (n: nat)
    ensures n <= |msgs|
  {
    if msgs == [] then 0
    else if msgs[0].role.System? then 1 + PreambleLen(msgs[1..])
    else if msgs[0].role.User? then 1
    else 0
  }

  function Preamble(msgs: seq<Message>): seq<Message> { msgs[..PreambleLen(msgs)] }

  function Tail(msgs: seq<Message>): seq<Message> { msgs[PreambleLen(msgs)..] }

  /** An assistant message opens a round; any other message joins the last one. */
  function Join(rounds: seq<seq<Message>>, m: Message): seq<seq<Message>> {
    if m.role.Assistant? || rounds == [] then rounds + [[m]] else Init(rounds) + [Last(rounds) + [m]]
  }

  function Rounds(tail: seq<Message>): seq<seq<Message>> {
    if tail == [] then [] else Join(Rounds(Init(tail)), Last(tail))
  }

  predicate OpensWithAssistant(msgs: seq<Message>) { msgs != [] && msgs[0].role.Assistant? }

  /** Non-empty rounds, each but possibly the first opened by an assistant message, which occurs nowhere else. */
  ghost predicate Grouped(rounds: seq<seq<Message>>) {
    && (forall i :: 0 <= i < |rounds| ==> rounds[i] != [])
    && (forall i :: 0 < i < |rounds| ==> OpensWithAssistant(rounds[i]))
    && (forall i, j :: 0 <= i < |rounds| && 0 < j < |rounds[i]| ==> !rounds[i][j].role.Assistant?)
  }

  lemma {:induction false} FlattenSnoc(rounds: seq<seq<Message>>, r: seq<Message>)
    ensures Flatten(rounds + [r]) == Flatten(rounds) + r
  {
    FlattenConcat(rounds, [r]);
    assert [r][1..] == [];
    assert r + [] == r;
  }

  lemma JoinAppends(rounds: seq<seq<Message>>, m: Message)
    ensures Flatten(Join(rounds, m)) == Flatten(rounds) + [m]
  {
    if m.role.Assistant? || rounds == [] {
      FlattenSnoc(rounds, [m]);
    } else {
      var front, last := Init(rounds), Last(rounds);
      assert rounds == front + [last];
      FlattenSnoc(front, last);
      FlattenSnoc(front, last + [m]);
      assert Flatten(front) + (last + [m]) == (Flatten(front) + last) + [m];
    }
  }

  lemma JoinKeepsGrouped(rounds: seq<seq<Message>>, m: Message)
    requires Grouped(rounds)
    ensures Grouped(Join(rounds, m))
  {
  }

  lemma {:induction false} RoundsPartition(tail: seq<Message>)
    ensures Flatten(Rounds(tail)) == tail && Grouped(Rounds(tail))
  {
    if tail != [] {
      RoundsPartition(Init(tail));
      JoinKeepsGrouped(Rounds(Init(tail)), Last(tail));
      JoinAppends(Rounds(Init(tail)), Last(tail));
    }
  }

  lemma WithoutLastMessage(front: seq<seq<Message>>, last: seq<Message>)
    requires Grouped(front + [last]) && |last| > 1
    ensures Grouped(front + [Init(last)])
    ensures Join(front + [Init(last)], Last(last)) == front + [last]
  {
    hide Flatten, Rounds;
    var rounds: seq<seq<Message>>, shorter: seq<seq<Message>> := front + [last], front + [Init(last)];
    forall i | 0 <= i < |shorter| ensures shorter[i] != [] && (i > 0 ==> OpensWithAssistant(shorter[i])) {
      assert rounds[i] != [];
    }
    forall i, j | 0 <= i < |shorter| && 0 < j < |shorter[i]| ensures !shorter[i][j].role.Assistant? {
      assert shorter[i][j] == rounds[i][j];
    }
    assert !rounds[|front|][|last| - 1].role.Assistant?;
    assert Init(shorter) == front;
    assert Init(last) + [Last(last)] == last;
  }

  lemma RoundsSnoc(tail: seq<Message>, m: Message)
    ensures Rounds(tail + [m]) == Join(Rounds(tail), m)
  {
    assert Init(tail + [m]) == tail;
  }

  lemma WithoutLastRound(front: seq<seq<Message>>, m: Message)
    requires Grouped(front + [[m]])
    ensures Grouped(front) && Join(front, m) == front + [[m]]
  {
    var rounds := front + [[m]];
    assert forall i :: 0 <= i < |front| ==> front[i] == rounds[i];
    assert rounds[|front|] == [m];
  }

  /** The grouping is the only one of its kind: any grouped rounds are found again in their messages. */
  lemma {:induction false} RoundsAreUnique(rounds: seq<seq<Message>>)
    requires Grouped(rounds)
    ensures Rounds(Flatten(rounds)) == rounds
    decreases |Flatten(rounds)|
  {
    if rounds != [] {
      var last, front := Last(rounds), Init(rounds);
      assert rounds == front + [last];
      var m, before := Last(last), Init(last);
      assert before + [m] == last;
      FlattenSnoc(front, last);
      hide Rounds, Flatten, Grouped;
      ConcatAssociates(Flatten(front), before, [m]);
      RoundsSnoc(Flatten(front) + before, m);
      if |last| == 1 {
        WithoutLastRound(front, m);
        assert Flatten(front) + before == Flatten(front);
        RoundsAreUnique(front);
      } else {
        WithoutLastMessage(front, last);
        FlattenSnoc(front, before);
        RoundsAreUnique(front + [before]);
      }
    }
  }

  lemma GroupedConcat(a: seq<seq<Message>>, b: seq<seq<Message>>)
    requires Grouped(a) && Grouped(b) && (b != [] ==> OpensWithAssistant(b[0]))
    ensures Grouped(a + b)
  {
  }

  lemma RoundsConcat(tail: seq<Message>, more: seq<Message>)
    requires more == [] || OpensWithAssistant(more)
    ensures Rounds(tail + more) == Rounds(tail) + Rounds(more)
  {
    RoundsPartition(tail);
    RoundsPartition(more);
    var a, b := Rounds(tail), Rounds(more);
    if b != [] {
      assert b[0][0] == Flatten(b)[0];
    }
    GroupedConcat(a, b);
    FlattenConcat(a, b);
    RoundsAreUnique(a + b);
  }

  // ---- compaction ----

  /** How many rounds go: the fewest whose removal makes the prompt fit, or all. */
  function FirstFit(b: Budget, pre: seq<Message>, rounds: seq<seq<Message>>): (k: nat)
    ensures k <= |rounds|
  {
    if rounds == [] || b.Fits(pre + Flatten(rounds)) then 0 else 1 + FirstFit(b, pre, rounds[1..])
  }

  function DroppedRounds(b: Budget, msgs: seq<Message>): (k: nat)
    ensures k <= |Rounds(Tail(msgs))|
  {
    FirstFit(b, Preamble(msgs), Rounds(Tail(msgs)))
  }

  function Compacted(b: Budget, msgs: seq<Message>): seq<Message> {
    Preamble(msgs) + Flatten(Rounds(Tail(msgs))[DroppedRounds(b, msgs)..])
  }

  method PreambleEnd(msgs: seq<Message>) returns (i: nat)
    ensures i == PreambleLen(msgs)
  {
    i := 0;
    assert msgs[0..] == msgs;
    while i < |msgs| && msgs[i].role.System?
      invariant 0 <= i <= |msgs|
      invariant PreambleLen(msgs) == i + PreambleLen(msgs[i..])
    {
      assert msgs[i..][1..] == msgs[i + 1..];
      i := i + 1;
    }
    if i < |msgs| && msgs[i].role.User? {
      i := i + 1;
    }
  }

  method GroupRounds(tail: seq<Message>) returns (rounds: seq<seq<Message>>)
    ensures rounds == Rounds(tail)
  {
    rounds := [];
    var i := 0;
    while i < |tail|
      invariant 0 <= i <= |tail|
      invariant rounds == Rounds(tail[..i])
    {
      var msg := tail[i];
      assert Init(tail[..i + 1]) == tail[..i];
      if msg.role.Assistant? || rounds == [] {
        rounds := rounds + [[msg]];
      } else {
        rounds := rounds[..|rounds| - 1] + [rounds[|rounds| - 1] + [msg]];
      }
      i := i + 1;
    }
    assert tail[..i] == tail;
  }

  method CountAll(b: Budget, msgs: seq<Message>) returns (n: nat)
    ensures n == b.toolsOverhead + b.Tokens(msgs)
  {
    n := b.toolsOverhead;
    var i := 0;
    while i < |msgs|
      invariant 0 <= i <= |msgs|
      invariant n == b.toolsOverhead + b.Tokens(msgs[..i])
    {
      TokensConcat(b, msgs[..i], [msgs[i]]);
      assert msgs[..i + 1] == msgs[..i] + [msgs[i]];
      assert [msgs[i]][1..] == [];
      n := n + b.count(msgs[i]);
      i := i + 1;
    }
    assert msgs[..i] == msgs;
  }

  /** The loop of `compact`: drop the oldest round until the prompt fits or no round is left. */
  method DropRounds(b: Budget, preamble: seq<Message>, all: seq<seq<Message>>) returns (rounds: seq<seq<Message>>)
    ensures rounds == all[FirstFit(b, preamble, all)..]
  {
    rounds := all;
    ghost var gone := 0;
    while rounds != []
      invariant gone <= |all| && rounds == all[gone..]
      invariant FirstFit(b, preamble, all) == gone + FirstFit(b, preamble, rounds)
    {
      var flat := Flat(rounds);
      var candidate := CountAll(b, preamble + flat);
      if candidate <= b.maxPromptTokens { break; }
      rounds := rounds[1..];
      gone := gone + 1;
    }
  }

  method Compact(b: Budget, msgs: seq<Message>) returns (out: seq<Message>, dropped: nat, tokensAfter: nat)
    ensures out == Compacted(b, msgs)
    ensures dropped == |msgs| - |out|
    ensures tokensAfter == b.toolsOverhead + b.Tokens(out)
  {
    RoundsPartition(Tail(msgs));
    assert msgs == Preamble(msgs) + Tail(msgs);
    var total := CountAll(b, msgs);
    if total <= b.maxPromptTokens {
      assert b.Fits(msgs);
      assert Rounds(Tail(msgs))[0..] == Rounds(Tail(msgs));
      return msgs, 0, total;
    }
    hide Rounds, PreambleLen, Flatten, FirstFit;
    var at := PreambleEnd(msgs);
    var preamble := msgs[..at];
    var rounds := GroupRounds(msgs[at..]);
    ghost var all := rounds;
    rounds := DropRounds(b, preamble, rounds);
    var flat := Flat(rounds);
    out := preamble + flat;
    tokensAfter := CountAll(b, out);
    SplitFlatten(preamble, all, FirstFit(b, preamble, all));
    dropped := |msgs| - |out|;
  }

  method Flat(rounds: seq<seq<Message>>) returns (out: seq<Message>)
    ensures out == Flatten(rounds)
  {
    out := [];
    var i := 0;
    while i < |rounds|
      invariant 0 <= i <= |rounds|
      invariant out == Flatten(rounds[..i])
    {
      FlattenSnoc(rounds[..i], rounds[i]);
      assert rounds[..i + 1] == rounds[..i] + [rounds[i]];
      out := out + rounds[i];
      i := i + 1;
    }
    assert rounds[..i] == rounds;
  }

  // ---- what compaction keeps ----

  lemma {:induction false} FirstFitIsLeast(b: Budget, pre: seq<Message>, rounds: seq<seq<Message>>)
    ensures var k := FirstFit(b, pre, rounds);
      && (k == |rounds| || b.Fits(pre + Flatten(rounds[k..])))
      && forall j :: 0 <= j < k ==> !b.Fits(pre + Flatten(rounds[j..]))
  {
    assert rounds[0..] == rounds;
    if rounds != [] && !b.Fits(pre + Flatten(rounds)) {
      FirstFitIsLeast(b, pre, rounds[1..]);
      var k := FirstFit(b, pre, rounds);
      assert k == 1 + FirstFit(b, pre, rounds[1..]);
      hide FirstFit, Flatten;
      assert rounds[1..][k - 1..] == rounds[k..];
      forall j | 0 <= j < k ensures !b.Fits(pre + Flatten(rounds[j..])) {
        if j > 0 { assert rounds[1..][j - 1..] == rounds[j..]; }
      }
    }
  }

  /**
   * The shortest prefix of whole rounds goes: with the cost of the tools the result is within the budget or is
   * the bare preamble, and dropping fewer rounds never is.
   */
  lemma CompactDropsShortestPrefix(b: Budget, msgs: seq<Message>)
    ensures b.toolsOverhead + b.Tokens(Compacted(b, msgs)) <= b.maxPromptTokens || Compacted(b, msgs) == Preamble(msgs)
    ensures forall j :: 0 <= j < DroppedRounds(b, msgs) ==>
      b.toolsOverhead + b.Tokens(Preamble(msgs) + Flatten(Rounds(Tail(msgs))[j..])) > b.maxPromptTokens
  {
    var k, rounds := DroppedRounds(b, msgs), Rounds(Tail(msgs));
    FirstFitIsLeast(b, Preamble(msgs), rounds);
    if k == |rounds| {
      assert rounds[k..] == [];
    }
  }

  /** The preamble is the leading system messages and, if one follows them at once, the user turn; nothing else. */
  lemma {:induction false} PreambleIsLeading(msgs: seq<Message>)
    ensures var n := PreambleLen(msgs);
      && (forall i :: 0 <= i < n - 1 ==> msgs[i].role.System?)
      && (n > 0 ==> msgs[n - 1].role.System? || msgs[n - 1].role.User?)
      && (n < |msgs| && (n == 0 || msgs[n - 1].role.System?) ==> !msgs[n].role.System? && !msgs[n].role.User?)
  {
    if msgs != [] && msgs[0].role.System? { PreambleIsLeading(msgs[1..]); }
  }

  /** The token count of a list is the sum over its messages. */
  lemma {:induction false} TokensOfEach(b: Budget, x: seq<Message>, m: Message)
    ensures b.Tokens([]) == 0 && b.Tokens(x + [m]) == b.Tokens(x) + b.count(m)
  {
    TokensConcat(b, x, [m]);
    assert [m][1..] == [];
  }

  lemma SplitFlatten(pre: seq<Message>, rounds: seq<seq<Message>>, k: nat)
    requires k <= |rounds|
    ensures pre + Flatten(rounds) == pre + Flatten(rounds[..k]) + Flatten(rounds[k..])
  {
    assert rounds == rounds[..k] + rounds[k..];
    FlattenConcat(rounds[..k], rounds[k..]);
  }

  /** Kept plus dropped is the original: the dropped messages are one block right after the preamble. */
  lemma CompactConserves(b: Budget, msgs: seq<Message>)
    ensures var rounds, k := Rounds(Tail(msgs)), DroppedRounds(b, msgs);
      && msgs == Preamble(msgs) + Flatten(rounds[..k]) + Flatten(rounds[k..])
      && Compacted(b, msgs) == Preamble(msgs) + Flatten(rounds[k..])
  {
    RoundsPartition(Tail(msgs));
    SplitFlatten(Preamble(msgs), Rounds(Tail(msgs)), DroppedRounds(b, msgs));
    assert msgs == Preamble(msgs) + Tail(msgs);
  }

  lemma {:induction false} PreambleOfConcat(msgs: seq<Message>, more: seq<Message>)
    requires more == [] || OpensWithAssistant(more)
    ensures Preamble(msgs + more) == Preamble(msgs) && Tail(msgs + more) == Tail(msgs) + more
  {
    if msgs != [] && msgs[0].role.System? {
      assert (msgs + more)[1..] == msgs[1..] + more;
      PreambleOfConcat(msgs[1..], more);
    } else if msgs == [] {
      assert msgs + more == more;
    }
  }

  lemma {:induction false} PreambleOfPreamble(msgs: seq<Message>)
    ensures Preamble(Preamble(msgs)) == Preamble(msgs) && Tail(Preamble(msgs)) == []
  {
    if msgs != [] && msgs[0].role.System? {
      PreambleOfPreamble(msgs[1..]);
      assert Preamble(msgs)[1..] == Preamble(msgs[1..]);
    }
  }

  lemma GroupedSuffix(rounds: seq<seq<Message>>, k: nat)
    requires Grouped(rounds) && k <= |rounds|
    ensures Grouped(rounds[k..])
    ensures 0 < k < |rounds| ==> OpensWithAssistant(Flatten(rounds[k..]))
  {
  }

  /** A compacted history splits into the same preamble and the rounds that were kept. */
  lemma CompactedShape(b: Budget, msgs: seq<Message>)
    ensures Preamble(Compacted(b, msgs)) == Preamble(msgs)
    ensures Rounds(Tail(Compacted(b, msgs))) == Rounds(Tail(msgs))[DroppedRounds(b, msgs)..]
  {
    var k, rounds := DroppedRounds(b, msgs), Rounds(Tail(msgs));
    RoundsPartition(Tail(msgs));
    GroupedSuffix(rounds, k);
    RoundsAreUnique(rounds[k..]);
    if k == 0 {
      assert rounds[0..] == rounds;
      assert Compacted(b, msgs) == Preamble(msgs) + Tail(msgs) == msgs;
    } else {
      if k == |rounds| { assert rounds[k..] == []; }
      PreambleOfPreamble(msgs);
      PreambleOfConcat(Preamble(msgs), Flatten(rounds[k..]));
    }
  }

  lemma MoreDoesNotFit(b: Budget, pre: seq<Message>, rounds: seq<seq<Message>>, more: seq<seq<Message>>)
    requires !b.Fits(pre + Flatten(rounds))
    ensures !b.Fits(pre + Flatten(rounds + more))
  {
    FlattenConcat(rounds, more);
    TokensConcat(b, pre, Flatten(rounds));
    TokensConcat(b, pre, Flatten(rounds) + Flatten(more));
    TokensConcat(b, Flatten(rounds), Flatten(more));
  }

  /** Rounds that did not fit alone do not fit with more behind them. */
  lemma {:induction false} FirstFitSkips(b: Budget, pre: seq<Message>, rounds: seq<seq<Message>>, more: seq<seq<Message>>)
    ensures FirstFit(b, pre, rounds + more) ==
      FirstFit(b, pre, rounds) + FirstFit(b, pre, rounds[FirstFit(b, pre, rounds)..] + more)
  {
    hide Flatten, Budget.Fits;
    if rounds == [] || b.Fits(pre + Flatten(rounds)) {
      assert rounds[0..] == rounds;
    } else {
      MoreDoesNotFit(b, pre, rounds, more);
      var k := FirstFit(b, pre, rounds[1..]);
      assert FirstFit(b, pre, rounds) == k + 1;
      assert FirstFit(b, pre, rounds + more) == 1 + FirstFit(b, pre, rounds[1..] + more) by {
        assert (rounds + more)[1..] == rounds[1..] + more;
      }
      FirstFitSkips(b, pre, rounds[1..], more);
      hide FirstFit;
      assert rounds[1..][k..] == rounds[k + 1..];
    }
  }

  lemma KeptRounds(b: Budget, pre: seq<Message>, rounds: seq<seq<Message>>, extra: seq<seq<Message>>)
    ensures var kept := rounds[FirstFit(b, pre, rounds)..] + extra;
      kept[FirstFit(b, pre, kept)..] == (rounds + extra)[FirstFit(b, pre, rounds + extra)..]
  {
    FirstFitSkips(b, pre, rounds, extra);
    hide FirstFit;
    var k := FirstFit(b, pre, rounds);
    var n := FirstFit(b, pre, rounds[k..] + extra);
    assert (rounds[k..] + extra)[n..] == (rounds + extra)[k + n..];
  }

  /**
   * Compacting before or after more rounds arrive makes no difference: history forgotten early
   * would have been forgotten later anyway.
   */
  lemma CompactionIsPathIndependent(b: Budget, msgs: seq<Message>, more: seq<Message>)
    requires more == [] || OpensWithAssistant(more)
    ensures Compacted(b, Compacted(b, msgs) + more) == Compacted(b, msgs + more)
  {
    var c := Compacted(b, msgs);
    var pre, rounds, extra := Preamble(msgs), Rounds(Tail(msgs)), Rounds(more);
    assert Preamble(c + more) == pre && Rounds(Tail(c + more)) == rounds[DroppedRounds(b, msgs)..] + extra by {
      CompactedShape(b, msgs);
      PreambleOfConcat(c, more);
      RoundsConcat(Tail(c), more);
    }
    assert Preamble(msgs + more) == pre && Rounds(Tail(msgs + more)) == rounds + extra by {
      PreambleOfConcat(msgs, more);
      RoundsConcat(Tail(msgs), more);
    }
    KeptRounds(b, pre, rounds, extra);
  }

  lemma CompactIsIdempotent(b: Budget, msgs: seq<Message>)
    ensures Compacted(b, Compacted(b, msgs)) == Compacted(b, msgs)
  {
    CompactionIsPathIndependent(b, msgs, []);
    assert Compacted(b, msgs) + [] == Compacted(b, msgs);
    assert msgs + [] == msgs;
  }

  lemma {:induction false} FirstFitMonotone(b: Budget, more: nat, pre: seq<Message>, rounds: seq<seq<Message>>)
    requires b.maxPromptTokens <= more
    ensures FirstFit(b.(maxPromptTokens := more), pre, rounds) <= FirstFit(b, pre, rounds)
  {
    var c := b.(maxPromptTokens := more);
    SameTokens(b, more, pre + Flatten(rounds));
    if rounds != [] && !b.Fits(pre + Flatten(rounds)) {
      FirstFitMonotone(b, more, pre, rounds[1..]);
    }
  }

  lemma {:induction false} SameTokens(b: Budget, more: nat, msgs: seq<Message>)
    ensures b.(maxPromptTokens := more).Tokens(msgs) == b.Tokens(msgs)
  {
    if msgs != [] { SameTokens(b, more, msgs[1..]); }
  }

  lemma LaterSuffix(pre: seq<Message>, rounds: seq<seq<Message>>, j: nat, k: nat)
    requires j <= k <= |rounds|
    ensures pre + Flatten(rounds[j..]) == pre + Flatten(rounds[j..k]) + Flatten(rounds[k..])
  {
    hide Flatten;
    SplitFlatten(pre, rounds[j..], k - j);
    assert rounds[j..][..k - j] == rounds[j..k] && rounds[j..][k - j..] == rounds[k..];
  }

  /** A larger budget keeps at least as long a suffix of the rounds. */
  lemma LargerBudgetKeepsMore(b: Budget, more: nat, msgs: seq<Message>)
    requires b.maxPromptTokens <= more
    ensures var c := b.(maxPromptTokens := more);
      exists extra :: Compacted(c, msgs) == Preamble(msgs) + extra + Flatten(Rounds(Tail(msgs))[DroppedRounds(b, msgs)..])
  {
    var c := b.(maxPromptTokens := more);
    var rounds := Rounds(Tail(msgs));
    FirstFitMonotone(b, more, Preamble(msgs), rounds);
    var j, k := DroppedRounds(c, msgs), DroppedRounds(b, msgs);
    LaterSuffix(Preamble(msgs), rounds, j, k);
  }

  // ---- pairing of calls and results ----

  /** An assistant message followed by exactly the results of its calls, in call order. */
  predicate Paired(round: seq<Message>) {
    && OpensWithAssistant(round)
    && |round| == 1 + |round[0].toolCalls|
    && forall i :: 0 <= i < |round[0].toolCalls| ==>
        && round[i + 1].role.Tool?
        && round[i + 1].toolCallId == Some(round[0].toolCalls[i].id)
        && round[i + 1].name == Some(round[0].toolCalls[i].name)
  }

  ghost predicate AllPaired(msgs: seq<Message>) {
    forall i :: 0 <= i < |Rounds(Tail(msgs))| ==> Paired(Rounds(Tail(msgs))[i])
  }

  lemma CompactKeepsPairs(b: Budget, msgs: seq<Message>)
    requires AllPaired(msgs)
    ensures AllPaired(Compacted(b, msgs))
  {
    CompactedShape(b, msgs);
  }

  lemma PairedIsOneRound(round: seq<Message>)
    requires Paired(round)
    ensures Rounds(round) == [round]
  {
    forall j | 0 < j < |round| ensures !round[j].role.Assistant? {
      var i := j - 1;
      assert round[0].toolCalls[i] == round[0].toolCalls[i] && round[i + 1].role.Tool?;
    }
    assert Grouped([round]);
    RoundsAreUnique([round]);
    assert [round][1..] == [];
    assert Flatten([round]) == round + [] == round;
  }

  lemma AppendKeepsPairs(msgs: seq<Message>, round: seq<Message>)
    requires AllPaired(msgs) && Paired(round)
    ensures AllPaired(msgs + round)
  {
    PreambleOfConcat(msgs, round);
    RoundsConcat(Tail(msgs), round);
    PairedIsOneRound(round);
    hide Rounds, Tail, Paired;
    assert Rounds(Tail(msgs + round)) == Rounds(Tail(msgs)) + [round];
  }
}
