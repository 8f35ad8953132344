/** The agent run loop, driven by an arbitrary model and arbitrary tools. */
module Runtime {
  import opened Seqs
  import opened Context

  datatype RunError = Provider(message: string) | Permanent(message: string) | DidNotFinish(steps: nat)

  datatype Usage = Usage(prompt: nat, completion: nat, total: nat, cost: real)
  {
    function Add(u: Usage): Usage {
      Usage(prompt + u.prompt, completion + u.completion, total + u.total, cost + u.cost)
    }
  }

  const NO_USAGE := Usage(0, 0, 0, 0.0)

  datatype Response = Response(message: Message, usage: Usage)

  datatype StreamItem =
    | TextDelta(text: string) | CallDelta(index: nat, name: string, arguments: string)
    | Thinking(text: string) | Completed(response: Response)

  type Stream = Result<seq<Result<StreamItem, RunError>>, RunError>

  datatype Event =
    | Delta(text: string) | ToolCallDelta(index: nat, name: string, arguments: string) | ReasoningDelta(text: string)
    | CallRequested(name: string, arguments: string) | CallFinished(name: string, ok: bool) | Done(usage: Usage)

  /** Raw model output shown while it is produced. */
  predicate Raw(e: Event) { e.Delta? || e.ToolCallDelta? || e.ReasoningDelta? }

  ghost predicate NoneRaw(events: seq<Event>) { forall e :: e in events ==> !Raw(e) }

  /** Everything outside the loop: the stream of the n-th model call, tool outcomes, the output guardrails. */
  datatype World = World(
    open: nat -> Stream,
    execute: (nat, nat, ToolCall) -> (string, bool),
    guard: string -> Result<string, RunError>)

  datatype Options = Options(maxSteps: nat, stepRetries: nat, budget: Budget, checksOutput: bool, hasTools: bool)

  /** The note of the forced final answer; its wording plays no part. */
  const NOTE := Message(System, Some("No steps or tools remain: answer now."), [], None, None)

  // ---- one streamed call ----

  /** The first error ends the stream; otherwise the last completed response counts. */
  function ReplyOf(items: seq<Result<StreamItem, RunError>>, completed: Option<Response>): Result<Response, RunError> {
    if items == [] then
      if completed.Some? then Ok(completed.value) else Err(Provider("model stream ended without a final response"))
    else match items[0]
      case Err(e) => Err(e)
      case Ok(Completed(r)) => ReplyOf(items[1..], Some(r))
      case Ok(_) => ReplyOf(items[1..], completed)
  }

  function Reply(stream: Stream): Result<Response, RunError> {
    match stream case Err(e) => Err(e) case Ok(items) => ReplyOf(items, None)
  }

  /** The outcome of a stream by its items: the first error if there is one, else the last completed response if there is one. */
  lemma {:induction false} ReplyMeans(items: seq<Result<StreamItem, RunError>>, completed: Option<Response>, k: nat)
    requires k <= |items|
    requires forall i :: 0 <= i < k ==> items[i].Ok?
    ensures k < |items| && items[k].Err? ==> ReplyOf(items, completed) == Err(items[k].error)
    ensures k == |items| > 0 && items[k - 1].value.Completed? ==> ReplyOf(items, completed) == Ok(items[k - 1].value.response)
    ensures k == |items| && (forall i :: 0 <= i < k ==> !items[i].value.Completed?) ==>
      ReplyOf(items, completed) ==
        if completed.Some? then Ok(completed.value) else Err(Provider("model stream ended without a final response"))
    decreases |items|
  {
    if k > 0 {
      ReplyMeans(items[1..], if items[0].value.Completed? then Some(items[0].value.response) else completed, k - 1);
    }
  }

  /** Items behind the last completed response do not matter unless one is an error. */
  lemma {:induction false} LastCompletedCounts(items: seq<Result<StreamItem, RunError>>, completed: Option<Response>, k: nat)
    requires k < |items| && forall i :: 0 <= i < |items| ==> items[i].Ok?
    requires items[k].value.Completed? && forall i :: k < i < |items| ==> !items[i].value.Completed?
    ensures ReplyOf(items, completed) == Ok(items[k].value.response)
    decreases |items|
  {
    if k == 0 {
      ReplyMeans(items[1..], Some(items[0].value.response), |items| - 1);
    } else {
      LastCompletedCounts(items[1..], if items[0].value.Completed? then Some(items[0].value.response) else completed, k - 1);
    }
  }

  /** What one item shows while streaming. */
  function ShownItem(item: StreamItem): seq<Event> {
    match item
    case TextDelta(text) => if text == "" then [] else [Delta(text)]
    case CallDelta(index, name, arguments) => [ToolCallDelta(index, name, arguments)]
    case Thinking(text) => if text == "" then [] else [ReasoningDelta(text)]
    case Completed(_) => []
  }

  /** What a stream shows up to its end or its first error. */
  function ShownItems(items: seq<Result<StreamItem, RunError>>): seq<Event> {
    if items == [] || items[0].Err? then [] else ShownItem(items[0].value) + ShownItems(items[1..])
  }

  /** Everything a stream says, as the pieces of text, of reasoning and of calls in order. */
  datatype Said = Text(text: string) | Reasoning(text: string) | Call(index: nat, name: string, arguments: string)

  function SaidBy(items: seq<Result<StreamItem, RunError>>): seq<Said> {
    if items == [] || items[0].Err? then [] else SaidItem(items[0].value) + SaidBy(items[1..])
  }

  function HeardEvent(event: Event): seq<Said> {
    match event
    case Delta(text) => [Text(text)]
    case ReasoningDelta(text) => [Reasoning(text)]
    case ToolCallDelta(index, name, arguments) => [Call(index, name, arguments)]
    case _ => []
  }

  function Heard(events: seq<Event>): seq<Said> {
    if events == [] then [] else HeardEvent(events[0]) + Heard(events[1..])
  }

  /** Only empty pieces of text and reasoning are left out. */
  predicate Audible(s: Said) { s.Call? || s.text != "" }

  /** What one item says. */
  function SaidItem(item: StreamItem): seq<Said> {
    match item
    case TextDelta(text) => [Text(text)]
    case Thinking(text) => [Reasoning(text)]
    case CallDelta(index, name, arguments) => [Call(index, name, arguments)]
    case Completed(_) => []
  }

  lemma OneItemIsSaid(item: StreamItem, rest: seq<Event>, said: seq<Said>)
    requires Heard(rest) == Filter(Audible, said)
    ensures Heard(ShownItem(item) + rest) == Filter(Audible, SaidItem(item) + said)
  {
    if item.Completed? {
      assert [] + rest == rest && [] + said == said;
    } else {
      var s := SaidItem(item)[0];
      assert ([s] + said)[1..] == said;
      if Audible(s) {
        HeardNext(ShownItem(item)[0], rest);
      } else {
        assert [] + rest == rest && [] + Filter(Audible, said) == Filter(Audible, said);
      }
    }
  }

  lemma HeardNext(event: Event, rest: seq<Event>)
    ensures Heard([event] + rest) == HeardEvent(event) + Heard(rest)
  {
    assert ([event] + rest)[1..] == rest;
  }

  /** Unbuffered, what is shown is what the stream says before its first error, in order. */
  lemma {:induction false} ShownIsSaid(items: seq<Result<StreamItem, RunError>>)
    ensures Heard(ShownItems(items)) == Filter(Audible, SaidBy(items))
  {
    if items != [] && items[0].Ok? {
      ShownIsSaid(items[1..]);
      OneItemIsSaid(items[0].value, ShownItems(items[1..]), SaidBy(items[1..]));
    }
  }

  function Shown(stream: Stream, buffer: bool): seq<Event> {
    if buffer || stream.Err? then [] else ShownItems(stream.value)
  }

  method StreamChat(stream: Stream, buffer: bool) returns (r: Result<Response, RunError>, shown: seq<Event>)
    ensures r == Reply(stream) && shown == Shown(stream, buffer)
  {
    shown := [];
    if stream.Err? { return Err(stream.error), shown; }
    var items := stream.value;
    var completed: Option<Response> := None;
    var i := 0;
    assert items[0..] == items;
    while i < |items|
      invariant 0 <= i <= |items|
      invariant ReplyOf(items, None) == ReplyOf(items[i..], completed)
      invariant buffer ==> shown == []
      invariant !buffer ==> ShownItems(items) == shown + ShownItems(items[i..])
    {
      assert items[i..][1..] == items[i + 1..];
      if items[i].Err? { return Err(items[i].error), shown; }
      var item := items[i].value;
      ConcatAssociates(shown, ShownItem(item), ShownItems(items[i + 1..]));
      assert shown + [] == shown;
      match item {
        case TextDelta(text) =>
          if !buffer && text != "" { shown := shown + [Delta(text)]; }
        case CallDelta(index, name, arguments) =>
          if !buffer { shown := shown + [ToolCallDelta(index, name, arguments)]; }
        case Thinking(text) =>
          if !buffer && text != "" { shown := shown + [ReasoningDelta(text)]; }
        case Completed(response) => completed := Some(response);
      }
      i := i + 1;
    }
    r := if completed.Some? then Ok(completed.value) else Err(Provider("model stream ended without a final response"));
  }

  predicate Failed(w: World, k: nat) { Reply(w.open(k)).Err? }

  /** The outcome of one step after `used` calls: all but the last failed transiently, and the last was worth stopping at. */
  ghost predicate CallOk(w: World, first: nat, retries: nat, used: nat, r: Result<Response, RunError>) {
    && 1 <= used <= retries + 1
    && r == Reply(w.open(first + used - 1))
    && (forall k :: first <= k < first + used - 1 ==> Failed(w, k) && Reply(w.open(k)).error.Provider?)
    && (r.Err? ==> !r.error.Provider? || used == retries + 1)
  }

  /** What `used` calls from the given one on show. */
  function AttemptsShown(w: World, buffer: bool, first: nat, used: nat): seq<Event> {
    if used == 0 then [] else AttemptsShown(w, buffer, first, used - 1) + Shown(w.open(first + used - 1), buffer)
  }

  /** One step: re-issue the call after a provider error while retries remain. */
  method CallModel(w: World, first: nat, retries: nat, buffer: bool)
    returns (r: Result<Response, RunError>, used: nat, shown: seq<Event>)
    ensures CallOk(w, first, retries, used, r)
    ensures shown == AttemptsShown(w, buffer, first, used)
  {
    hide Reply, Shown;
    shown := [];
    used := 0;
    while true
      invariant 0 <= used <= retries
      invariant forall k :: first <= k < first + used ==> Failed(w, k) && Reply(w.open(k)).error.Provider?
      invariant shown == AttemptsShown(w, buffer, first, used)
      decreases retries - used
    {
      var more: seq<Event>;
      r, more := StreamChat(w.open(first + used), buffer);
      shown := shown + more;
      if r.Ok? || !r.error.Provider? || used == retries {
        used := used + 1;
        return;
      }
      used := used + 1;
    }
  }

  // ---- one tool round ----

  function ToolResultMessage(call: ToolCall, text: string): Message {
    Message(Tool, Some(text), [], Some(call.id), Some(call.name))
  }

  /** What a step adds to the history: the assistant turn and one result per call, in call order. */
  function Round(w: World, step: nat, reply: Response): (r: seq<Message>)
    ensures |r| == 1 + |reply.message.toolCalls| && r[0] == reply.message
  {
    var calls := reply.message.toolCalls;
    [reply.message] + seq(|calls|, i requires 0 <= i < |calls| => ToolResultMessage(calls[i], w.execute(step, i, calls[i]).0))
  }

  lemma RoundIsPaired(w: World, step: nat, reply: Response)
    requires reply.message.role.Assistant?
    ensures Paired(Round(w, step, reply))
    ensures var calls := reply.message.toolCalls;
      forall i :: 0 <= i < |calls| ==>
        Round(w, step, reply)[i + 1].content == Some(w.execute(step, i, calls[i]).0) && Round(w, step, reply)[i + 1].toolCalls == []
  {
    var r, calls := Round(w, step, reply), reply.message.toolCalls;
    forall i | 0 <= i < |calls|
      ensures r[i + 1].role.Tool? && r[i + 1].toolCallId == Some(calls[i].id) && r[i + 1].name == Some(calls[i].name)
      ensures r[i + 1].content == Some(w.execute(step, i, calls[i]).0) && r[i + 1].toolCalls == []
    {
      assert r[i + 1] == ToolResultMessage(calls[i], w.execute(step, i, calls[i]).0);
    }
  }

  /** Every call is announced, in order, before any result is. */
  function ToolEvents(w: World, step: nat, reply: Response): (r: seq<Event>)
    ensures |r| == 2 * |reply.message.toolCalls| && NoneRaw(r)
  {
    var calls := reply.message.toolCalls;
    seq(|calls|, i requires 0 <= i < |calls| => CallRequested(calls[i].name, calls[i].arguments))
    + seq(|calls|, i requires 0 <= i < |calls| => CallFinished(calls[i].name, w.execute(step, i, calls[i]).1))
  }

  /** Call i is announced i-th, with its name and arguments; its result follows the announcements, i-th, with its success. */
  lemma ToolEventsAt(w: World, step: nat, reply: Response, i: nat)
    requires i < |reply.message.toolCalls|
    ensures var calls := reply.message.toolCalls;
      && ToolEvents(w, step, reply)[i] == CallRequested(calls[i].name, calls[i].arguments)
      && ToolEvents(w, step, reply)[|calls| + i] == CallFinished(calls[i].name, w.execute(step, i, calls[i]).1)
  {
  }

  method RunTools(w: World, step: nat, reply: Response) returns (messages: seq<Message>, events: seq<Event>)
    ensures messages == Round(w, step, reply)
    ensures events == ToolEvents(w, step, reply)
  {
    var calls := reply.message.toolCalls;
    messages := [reply.message];
    events := [];
    var i := 0;
    while i < |calls|
      invariant 0 <= i <= |calls|
      invariant events == ToolEvents(w, step, reply)[..i]
    {
      events := events + [CallRequested(calls[i].name, calls[i].arguments)];
      i := i + 1;
    }
    i := 0;
    while i < |calls|
      invariant 0 <= i <= |calls|
      invariant messages == Round(w, step, reply)[..i + 1]
      invariant events == ToolEvents(w, step, reply)[..|calls| + i]
    {
      var outcome := w.execute(step, i, calls[i]);
      events := events + [CallFinished(calls[i].name, outcome.1)];
      messages := messages + [ToolResultMessage(calls[i], outcome.0)];
      i := i + 1;
    }
  }

  // ---- the history over a whole run ----

  function RoundsOf(w: World, replies: seq<Response>): (r: seq<seq<Message>>)
    ensures |r| == |replies|
    ensures forall k :: 0 <= k < |replies| ==> r[k] == Round(w, k, replies[k])
  {
    if replies == [] then [] else RoundsOf(w, Init(replies)) + [Round(w, |replies| - 1, Last(replies))]
  }

  /** The history the loop carries into step k: compacted at every earlier step, then one round added. */
  function LoopHistory(b: Budget, opening: seq<Message>, rounds: seq<seq<Message>>): seq<Message> {
    if rounds == [] then opening else Compacted(b, LoopHistory(b, opening, Init(rounds))) + Last(rounds)
  }

  /** Everything said so far, nothing dropped. */
  function FullHistory(opening: seq<Message>, rounds: seq<seq<Message>>): seq<Message> {
    opening + Flatten(rounds)
  }

  lemma CompactAgain(b: Budget, h: seq<Message>, full: seq<Message>, more: seq<Message>)
    requires Compacted(b, h) == Compacted(b, full) && OpensWithAssistant(more)
    ensures Compacted(b, Compacted(b, h) + more) == Compacted(b, full + more)
  {
    CompactionIsPathIndependent(b, full, more);
  }

  lemma FullHistorySnoc(opening: seq<Message>, rounds: seq<seq<Message>>)
    requires rounds != []
    ensures FullHistory(opening, rounds) == FullHistory(opening, Init(rounds)) + Last(rounds)
  {
    assert rounds == Init(rounds) + [Last(rounds)];
    FlattenSnoc(Init(rounds), Last(rounds));
  }

  /** Compacting at every step of a run sends what compacting the never-dropped history once would send. */
  lemma {:induction false} LoopCompactsLikeOneShot(b: Budget, opening: seq<Message>, rounds: seq<seq<Message>>)
    requires forall i :: 0 <= i < |rounds| ==> OpensWithAssistant(rounds[i])
    ensures Compacted(b, LoopHistory(b, opening, rounds)) == Compacted(b, FullHistory(opening, rounds))
  {
    if rounds == [] {
      assert opening + Flatten(rounds) == opening;
    } else {
      var front := Init(rounds);
      LoopCompactsLikeOneShot(b, opening, front);
      FullHistorySnoc(opening, rounds);
      CompactAgain(b, LoopHistory(b, opening, front), FullHistory(opening, front), Last(rounds));
    }
  }

  lemma {:induction false} LoopHistoryIsPaired(b: Budget, opening: seq<Message>, rounds: seq<seq<Message>>)
    requires AllPaired(opening) && forall i :: 0 <= i < |rounds| ==> Paired(rounds[i])
    ensures AllPaired(LoopHistory(b, opening, rounds))
    ensures Preamble(LoopHistory(b, opening, rounds)) == Preamble(opening)
  {
    if rounds != [] {
      LoopHistoryIsPaired(b, opening, Init(rounds));
      var h := LoopHistory(b, opening, Init(rounds));
      CompactKeepsPairs(b, h);
      AppendKeepsPairs(Compacted(b, h), Last(rounds));
      CompactedShape(b, h);
      PreambleOfConcat(Compacted(b, h), Last(rounds));
    }
  }

  /** The request of step k, whose history is h. The last step of a run with tools carries the note instead of tools. */
  function Request(opts: Options, k: nat, h: seq<Message>): seq<Message> {
    Compacted(opts.budget, h) + if k + 1 == opts.maxSteps && opts.hasTools then [NOTE] else []
  }

  function TotalUsage(replies: seq<Response>): Usage {
    if replies == [] then NO_USAGE else TotalUsage(Init(replies)).Add(Last(replies).usage)
  }

  function Sum(ns: seq<nat>): nat { if ns == [] then 0 else Sum(Init(ns)) + Last(ns) }

  function CostSum(cs: seq<real>): real { if cs == [] then 0.0 else CostSum(Init(cs)) + Last(cs) }

  /** Each count of the usage is the sum of that count over the replies. */
  lemma {:induction false} UsageIsSum(replies: seq<Response>)
    ensures var u := TotalUsage(replies);
      && u.prompt == Sum(seq(|replies|, i requires 0 <= i < |replies| => replies[i].usage.prompt))
      && u.completion == Sum(seq(|replies|, i requires 0 <= i < |replies| => replies[i].usage.completion))
      && u.total == Sum(seq(|replies|, i requires 0 <= i < |replies| => replies[i].usage.total))
      && u.cost == CostSum(seq(|replies|, i requires 0 <= i < |replies| => replies[i].usage.cost))
  {
    if replies != [] {
      var front, n := Init(replies), |replies|;
      UsageIsSum(front);
      assert Init(seq(n, i requires 0 <= i < n => replies[i].usage.prompt)) == seq(n - 1, i requires 0 <= i < n - 1 => front[i].usage.prompt);
      assert Init(seq(n, i requires 0 <= i < n => replies[i].usage.completion)) == seq(n - 1, i requires 0 <= i < n - 1 => front[i].usage.completion);
      assert Init(seq(n, i requires 0 <= i < n => replies[i].usage.total)) == seq(n - 1, i requires 0 <= i < n - 1 => front[i].usage.total);
      assert Init(seq(n, i requires 0 <= i < n => replies[i].usage.cost)) == seq(n - 1, i requires 0 <= i < n - 1 => front[i].usage.cost);
    }
  }

  function TextOf(m: Message): string {
    if m.content.Some? then m.content.value else ""
  }

  datatype Output = Output(text: string, usage: Usage, steps: nat)

  /** What the caller gets once the loop has stopped after these replies. */
  function Outcome(w: World, opts: Options, replies: seq<Response>): Result<Output, RunError> {
    var text := if replies != [] && Last(replies).message.toolCalls == [] then TextOf(Last(replies).message) else "";
    if |replies| == opts.maxSteps && text == "" then Err(DidNotFinish(opts.maxSteps))
    else if !opts.checksOutput then Ok(Output(text, TotalUsage(replies), |replies|))
    else match w.guard(text)
      case Err(e) => Err(e)
      case Ok(checked) => Ok(Output(checked, TotalUsage(replies), |replies|))
  }

  /** The record of a run: successful replies, requests sent, model calls made, events emitted. */
  datatype Trace = Trace(replies: seq<Response>, requests: seq<seq<Message>>, attempts: nat, events: seq<Event>)

  /** The history carried into the step after these replies. */
  function HistoryAfter(w: World, opts: Options, opening: seq<Message>, replies: seq<Response>): seq<Message> {
    LoopHistory(opts.budget, opening, RoundsOf(w, replies))
  }

  /** Request k is the compacted loop history, plus the note on the last step. */
  ghost predicate RequestsOk(w: World, opts: Options, opening: seq<Message>, replies: seq<Response>, requests: seq<seq<Message>>) {
    && |replies| <= |requests| <= |replies| + 1
    && forall k :: 0 <= k < |requests| ==> requests[k] == Request(opts, k, HistoryAfter(w, opts, opening, replies[..k]))
  }

  lemma RequestSent(w: World, opts: Options, opening: seq<Message>, replies: seq<Response>, requests: seq<seq<Message>>, sent: seq<Message>)
    requires RequestsOk(w, opts, opening, replies, requests) && |requests| == |replies|
    requires sent == Compacted(opts.budget, HistoryAfter(w, opts, opening, replies))
      + if |replies| + 1 == opts.maxSteps && opts.hasTools then [NOTE] else []
    ensures RequestsOk(w, opts, opening, replies, requests + [sent])
  {
    hide HistoryAfter, Compacted;
    assert replies[..|replies|] == replies;
  }

  lemma HistorySnoc(w: World, opts: Options, opening: seq<Message>, replies: seq<Response>, reply: Response)
    ensures HistoryAfter(w, opts, opening, replies + [reply])
         == Compacted(opts.budget, HistoryAfter(w, opts, opening, replies)) + Round(w, |replies|, reply)
  {
    hide Compacted, Round;
    var all := replies + [reply];
    assert Init(all) == replies && Last(all) == reply;
    assert RoundsOf(w, all) == RoundsOf(w, replies) + [Round(w, |replies|, reply)];
    assert Init(RoundsOf(w, all)) == RoundsOf(w, replies);
  }

  lemma ReplyReceived(w: World, opts: Options, opening: seq<Message>, replies: seq<Response>, requests: seq<seq<Message>>, reply: Response)
    requires RequestsOk(w, opts, opening, replies, requests) && |requests| == |replies| + 1
    ensures RequestsOk(w, opts, opening, replies + [reply], requests)
    ensures HistoryAfter(w, opts, opening, replies + [reply])
         == Compacted(opts.budget, HistoryAfter(w, opts, opening, replies)) + Round(w, |replies|, reply)
  {
    var all := replies + [reply];
    HistorySnoc(w, opts, opening, replies, reply);
    hide HistoryAfter, Request;
    forall k | 0 <= k < |requests| ensures requests[k] == Request(opts, k, HistoryAfter(w, opts, opening, all[..k])) {
      assert all[..k] == replies[..k];
    }
  }

  // ---- every model call is accounted for ----

  /** The replies among the first n model calls. */
  function Successes(w: World, n: nat): seq<Response> {
    if n == 0 then []
    else if Failed(w, n - 1) then Successes(w, n - 1)
    else Successes(w, n - 1) + [Reply(w.open(n - 1)).value]
  }

  /** The tool events that follow model call k. */
  function ToolsAfter(w: World, k: nat): (r: seq<Event>)
    ensures NoneRaw(r)
  {
    if Failed(w, k) then [] else ToolEvents(w, |Successes(w, k)|, Reply(w.open(k)).value)
  }

  /** The events of the first n model calls and of the tool rounds between them. */
  function EventsUpTo(w: World, buffer: bool, n: nat): seq<Event> {
    if n == 0 then [] else EventsUpTo(w, buffer, n - 1) + Shown(w.open(n - 1), buffer) + ToolsAfter(w, n - 1)
  }

  lemma {:induction false} FailuresOnlyShow(w: World, buffer: bool, first: nat, n: nat)
    requires forall k :: first <= k < first + n ==> Failed(w, k)
    ensures Successes(w, first + n) == Successes(w, first)
    ensures EventsUpTo(w, buffer, first + n) == EventsUpTo(w, buffer, first) + AttemptsShown(w, buffer, first, n)
  {
    hide Failed, Shown, ToolEvents;
    if n > 0 {
      FailuresOnlyShow(w, buffer, first, n - 1);
      assert Failed(w, first + n - 1);
      ConcatAssociates(EventsUpTo(w, buffer, first), AttemptsShown(w, buffer, first, n - 1), Shown(w.open(first + n - 1), buffer));
    } else {
      assert EventsUpTo(w, buffer, first) + [] == EventsUpTo(w, buffer, first);
    }
  }

  lemma LastCallAdds(w: World, buffer: bool, first: nat, used: nat, r: Result<Response, RunError>)
    requires used > 0 && r == Reply(w.open(first + used - 1))
    ensures var k := first + used - 1;
      && Successes(w, first + used) == Successes(w, k) + (if r.Ok? then [r.value] else [])
      && EventsUpTo(w, buffer, first + used) == EventsUpTo(w, buffer, k) + Shown(w.open(k), buffer) + ToolsAfter(w, k)
      && ToolsAfter(w, k) == (if r.Ok? then ToolEvents(w, |Successes(w, k)|, r.value) else [])
      && AttemptsShown(w, buffer, first, used) == AttemptsShown(w, buffer, first, used - 1) + Shown(w.open(k), buffer)
  {
    hide Reply, Shown, ToolEvents;
    assert Successes(w, first + used - 1) + [] == Successes(w, first + used - 1);
  }

  lemma StepReplies(w: World, first: nat, retries: nat, used: nat, r: Result<Response, RunError>)
    requires CallOk(w, first, retries, used, r)
    ensures Successes(w, first + used) == Successes(w, first) + (if r.Ok? then [r.value] else [])
    ensures Successes(w, first + used - 1) == Successes(w, first)
  {
    FailuresOnlyShow(w, true, first, used - 1);
    LastCallAdds(w, true, first, used, r);
    hide *;
  }

  lemma Regroup<T>(a: seq<T>, b: seq<T>, c: seq<T>, d: seq<T>)
    ensures (a + b) + c + d == a + ((b + c) + d)
  {
    ConcatAssociates(a, b, c);
    ConcatAssociates(a, b + c, d);
  }

  lemma StepEvents(w: World, buffer: bool, first: nat, retries: nat, used: nat, r: Result<Response, RunError>)
    requires CallOk(w, first, retries, used, r)
    ensures EventsUpTo(w, buffer, first + used) == EventsUpTo(w, buffer, first)
      + (AttemptsShown(w, buffer, first, used) + ToolsAfter(w, first + used - 1))
  {
    FailuresOnlyShow(w, buffer, first, used - 1);
    LastCallAdds(w, buffer, first, used, r);
    hide *;
    Regroup(EventsUpTo(w, buffer, first), AttemptsShown(w, buffer, first, used - 1),
            Shown(w.open(first + used - 1), buffer), ToolsAfter(w, first + used - 1));
  }

  /** What one step's calls add: their output, and on success the reply and its tool events. */
  lemma StepAddsUp(w: World, buffer: bool, first: nat, retries: nat, used: nat, r: Result<Response, RunError>)
    requires CallOk(w, first, retries, used, r)
    ensures Successes(w, first + used) == Successes(w, first) + (if r.Ok? then [r.value] else [])
    ensures EventsUpTo(w, buffer, first + used) == EventsUpTo(w, buffer, first)
      + (AttemptsShown(w, buffer, first, used) + if r.Ok? then ToolEvents(w, |Successes(w, first)|, r.value) else [])
  {
    StepReplies(w, first, retries, used, r);
    StepEvents(w, buffer, first, retries, used, r);
    LastCallAdds(w, buffer, first, used, r);
    hide *;
  }

  lemma QuietConcat(a: seq<Event>, b: seq<Event>)
    requires NoneRaw(a) && NoneRaw(b)
    ensures NoneRaw(a + b)
  {
    forall e | e in a + b ensures !Raw(e) { assert e in a || e in b; }
  }

  /** Buffered, the model's raw output is never shown. */
  lemma {:induction false} BufferedShowsNothingRaw(w: World, n: nat)
    ensures NoneRaw(EventsUpTo(w, true, n))
  {
    hide Failed, ToolsAfter, Raw, NoneRaw;
    if n > 0 {
      BufferedShowsNothingRaw(w, n - 1);
      var before := EventsUpTo(w, true, n - 1);
      assert before + Shown(w.open(n - 1), true) == before;
      QuietConcat(before, ToolsAfter(w, n - 1));
    } else {
      NothingIsQuiet();
    }
  }

  lemma NothingIsQuiet()
    ensures NoneRaw([])
  {
  }

  function MaxAttempts(steps: nat, retries: nat): nat {
    if steps == 0 then 0 else MaxAttempts(steps - 1, retries) + retries + 1
  }

  lemma {:induction false} MaxAttemptsIsProduct(steps: nat, retries: nat)
    ensures MaxAttempts(steps, retries) == steps * (retries + 1)
  {
    if steps > 0 {
      MaxAttemptsIsProduct(steps - 1, retries);
      assert steps * (retries + 1) == (steps - 1) * (retries + 1) + (retries + 1);
    }
  }

  /** How many of the calls right before the n-th failed. */
  function FailsInRow(w: World, n: nat): nat {
    if n == 0 || !Failed(w, n - 1) then 0 else 1 + FailsInRow(w, n - 1)
  }

  /** Among the first n calls only provider errors occur, and never more in a row than may be retried. */
  ghost predicate Transient(w: World, retries: nat, n: nat) {
    forall k: nat :: k < n ==> Tolerated(w, retries, k)
  }

  /** The call succeeded, or failed in a way that is retried. */
  predicate Tolerated(w: World, retries: nat, k: nat) {
    FailsInRow(w, k + 1) <= retries && (Failed(w, k) ==> Reply(w.open(k)).error.Provider?)
  }

  predicate Settled(w: World, n: nat) { n == 0 || !Failed(w, n - 1) }

  lemma {:induction false} FailuresCount(w: World, first: nat, n: nat)
    requires Settled(w, first) && forall k :: first <= k < first + n ==> Failed(w, k)
    ensures FailsInRow(w, first + n) == n
  {
    if n > 0 { FailuresCount(w, first, n - 1); }
  }

  /** One step's calls: retried only after provider errors, and given up as soon as one is permanent or too many. */
  lemma StepIsTransient(w: World, first: nat, retries: nat, used: nat, r: Result<Response, RunError>)
    requires CallOk(w, first, retries, used, r) && Transient(w, retries, first) && Settled(w, first)
    ensures Transient(w, retries, first + used - 1)
    ensures r.Ok? ==> Transient(w, retries, first + used) && Settled(w, first + used)
    ensures r.Err? && r.error.Provider? ==> FailsInRow(w, first + used) == retries + 1
  {
    forall k: nat | k < first + used - 1 ensures Tolerated(w, retries, k) {
      if k >= first { RetriedIsTolerated(w, first, retries, used, r, k); }
    }
    hide Reply, FailsInRow;
    if r.Ok? {
      SuccessIsTolerated(w, retries, first + used - 1);
    } else {
      assert Failed(w, first + used - 1);
      FailuresCount(w, first, used);
    }
  }

  lemma RetriedIsTolerated(w: World, first: nat, retries: nat, used: nat, r: Result<Response, RunError>, k: nat)
    requires CallOk(w, first, retries, used, r) && Settled(w, first) && first <= k < first + used - 1
    ensures Tolerated(w, retries, k)
  {
    hide Reply;
    FailuresCount(w, first, k + 1 - first);
    assert first + (k + 1 - first) == k + 1;
  }

  lemma SuccessIsTolerated(w: World, retries: nat, k: nat)
    requires !Failed(w, k)
    ensures Tolerated(w, retries, k)
  {
  }

  /** Replies and events are exactly those of the calls made, each of them in order. */
  ghost predicate Accounted(w: World, opts: Options, t: Trace) {
    && t.replies == Successes(w, t.attempts)
    && t.events == EventsUpTo(w, opts.checksOutput, t.attempts)
    && Transient(w, opts.stepRetries, t.attempts) && Settled(w, t.attempts)
  }

  /** The same with a last call that failed for good: permanently, or once more than may be retried. */
  ghost predicate AccountedFailure(w: World, opts: Options, t: Trace, error: RunError) {
    && t.replies == Successes(w, t.attempts)
    && t.events == EventsUpTo(w, opts.checksOutput, t.attempts)
    && 0 < t.attempts && Reply(w.open(t.attempts - 1)) == Err(error)
    && Transient(w, opts.stepRetries, t.attempts - 1)
    && (error.Provider? ==> FailsInRow(w, t.attempts) == opts.stepRetries + 1)
  }

  lemma ReplyAccounts(w: World, opts: Options, t: Trace, requests: seq<seq<Message>>, used: nat, reply: Response)
    requires Accounted(w, opts, t) && CallOk(w, t.attempts, opts.stepRetries, used, Ok(reply))
    ensures var events := AttemptsShown(w, opts.checksOutput, t.attempts, used) + ToolEvents(w, |t.replies|, reply);
      Accounted(w, opts, Trace(t.replies + [reply], requests, t.attempts + used, t.events + events))
  {
    hide EventsUpTo, AttemptsShown, ToolEvents, Successes, Reply, Transient, Settled, CallOk;
    StepIsTransient(w, t.attempts, opts.stepRetries, used, Ok(reply));
    StepAddsUp(w, opts.checksOutput, t.attempts, opts.stepRetries, used, Ok(reply));
  }

  lemma FailureAccounts(w: World, opts: Options, t: Trace, requests: seq<seq<Message>>, used: nat, error: RunError)
    requires Accounted(w, opts, t) && CallOk(w, t.attempts, opts.stepRetries, used, Err(error))
    ensures var events := AttemptsShown(w, opts.checksOutput, t.attempts, used);
      AccountedFailure(w, opts, Trace(t.replies, requests, t.attempts + used, t.events + events), error)
  {
    hide EventsUpTo, AttemptsShown, ToolEvents, Successes, Reply, Transient, Settled, FailsInRow;
    StepIsTransient(w, t.attempts, opts.stepRetries, used, Err(error));
    StepAddsUp(w, opts.checksOutput, t.attempts, opts.stepRetries, used, Err(error));
    var events := AttemptsShown(w, opts.checksOutput, t.attempts, used);
    assert events + [] == events && t.replies + [] == t.replies;
  }

  /** The state of the loop between two steps. */
  ghost predicate LoopOk(w: World, opts: Options, opening: seq<Message>, t: Trace, usage: Usage, finalText: string, answered: bool) {
    && RequestsOk(w, opts, opening, t.replies, t.requests)
    && |t.replies| == |t.requests| <= opts.maxSteps
    && t.attempts <= MaxAttempts(|t.requests|, opts.stepRetries)
    && usage == TotalUsage(t.replies)
    && (forall k :: 0 <= k < |t.replies| - 1 ==> t.replies[k].message.toolCalls != [])
    && (answered <==> t.replies != [] && Last(t.replies).message.toolCalls == [])
    && finalText == (if answered then TextOf(Last(t.replies).message) else "")
    && Accounted(w, opts, t)
  }

  /** A step whose model call failed for good. */
  ghost predicate StepFailed(w: World, opts: Options, opening: seq<Message>, t: Trace, error: RunError) {
    && RequestsOk(w, opts, opening, t.replies, t.requests)
    && |t.requests| == |t.replies| + 1 <= opts.maxSteps
    && t.attempts <= MaxAttempts(|t.requests|, opts.stepRetries)
    && (forall k :: 0 <= k < |t.replies| ==> t.replies[k].message.toolCalls != [])
    && AccountedFailure(w, opts, t, error)
  }

  lemma NothingSent(w: World, opts: Options, opening: seq<Message>)
    ensures LoopOk(w, opts, opening, Trace([], [], 0, []), NO_USAGE, "", false)
    ensures HistoryAfter(w, opts, opening, []) == opening
  {
  }

  /** A reply moves the loop on by one step. */
  lemma ReplyKeepsLoop(w: World, opts: Options, opening: seq<Message>, t: Trace, usage: Usage,
                       request: seq<Message>, used: nat, reply: Response)
    requires LoopOk(w, opts, opening, t, usage, "", false) && |t.replies| < opts.maxSteps
    requires RequestsOk(w, opts, opening, t.replies + [reply], t.requests + [request])
    requires CallOk(w, t.attempts, opts.stepRetries, used, Ok(reply))
    ensures var answered := reply.message.toolCalls == [];
      var events := AttemptsShown(w, opts.checksOutput, t.attempts, used) + ToolEvents(w, |t.replies|, reply);
      LoopOk(w, opts, opening, Trace(t.replies + [reply], t.requests + [request], t.attempts + used, t.events + events),
             usage.Add(reply.usage), if answered then TextOf(reply.message) else "", answered)
  {
    hide RequestsOk, TextOf, AttemptsShown, ToolEvents, Accounted, Reply;
    assert Init(t.replies + [reply]) == t.replies;
    ReplyAccounts(w, opts, t, t.requests + [request], used, reply);
  }

  lemma FailureEndsLoop(w: World, opts: Options, opening: seq<Message>, t: Trace, usage: Usage,
                        request: seq<Message>, used: nat, error: RunError)
    requires LoopOk(w, opts, opening, t, usage, "", false) && |t.replies| < opts.maxSteps
    requires RequestsOk(w, opts, opening, t.replies, t.requests + [request])
    requires CallOk(w, t.attempts, opts.stepRetries, used, Err(error))
    ensures var events := AttemptsShown(w, opts.checksOutput, t.attempts, used);
      StepFailed(w, opts, opening, Trace(t.replies, t.requests + [request], t.attempts + used, t.events + events), error)
  {
    hide RequestsOk, AttemptsShown, Accounted, AccountedFailure, Reply;
    assert forall k :: 0 <= k < |t.replies| ==> t.replies[k].message.toolCalls != [];
    FailureAccounts(w, opts, t, t.requests + [request], used, error);
  }

  /** Stop on an answer, else run the tools and extend the history by the round. */
  method TakeTurn(w: World, step: nat, messages: seq<Message>, reply: Response)
    returns (messages': seq<Message>, events: seq<Event>, finalText: string, answered: bool)
    ensures answered == (reply.message.toolCalls == [])
    ensures finalText == if answered then TextOf(reply.message) else ""
    ensures messages' == if answered then messages else messages + Round(w, step, reply)
    ensures events == ToolEvents(w, step, reply)
  {
    if reply.message.toolCalls == [] {
      return messages, [], TextOf(reply.message), true;
    }
    var round;
    round, events := RunTools(w, step, reply);
    messages', finalText, answered := messages + round, "", false;
  }

  method Step(w: World, opts: Options, ghost opening: seq<Message>, t: Trace, usage: Usage, messages: seq<Message>)
    returns (failed: Option<RunError>, t': Trace, usage': Usage, messages': seq<Message>, finalText: string, answered: bool)
    requires LoopOk(w, opts, opening, t, usage, "", false) && |t.replies| < opts.maxSteps
    requires messages == HistoryAfter(w, opts, opening, t.replies)
    ensures failed.Some? ==> StepFailed(w, opts, opening, t', failed.value)
    ensures failed.None? ==>
      && LoopOk(w, opts, opening, t', usage', finalText, answered)
      && |t'.replies| == |t.replies| + 1
      && (!answered ==> messages' == HistoryAfter(w, opts, opening, t'.replies))
  {
    assert RequestsOk(w, opts, opening, t.replies, t.requests) && |t.replies| == |t.requests|;
    hide *;
    var step := |t.replies|;
    usage', finalText, answered := usage, "", false;
    var dropped, tokensAfter;
    messages', dropped, tokensAfter := Compact(opts.budget, messages);
    var request := messages' + if step + 1 == opts.maxSteps && opts.hasTools then [NOTE] else [];
    RequestSent(w, opts, opening, t.replies, t.requests, request);
    var response, used, events := CallModel(w, t.attempts, opts.stepRetries, opts.checksOutput);
    if response.Err? {
      t' := Trace(t.replies, t.requests + [request], t.attempts + used, t.events + events);
      FailureEndsLoop(w, opts, opening, t, usage, request, used, response.error);
      return Some(response.error), t', usage', messages', finalText, answered;
    }
    var reply := response.value;
    ReplyReceived(w, opts, opening, t.replies, t.requests + [request], reply);
    usage' := usage.Add(reply.usage);
    var toolEvents;
    messages', toolEvents, finalText, answered := TakeTurn(w, step, messages', reply);
    ReplyKeepsLoop(w, opts, opening, t, usage, request, used, reply);
    t' := Trace(t.replies + [reply], t.requests + [request], t.attempts + used, t.events + (events + toolEvents));
    failed := None;
  }

  /** What a successful run emits last: with output guardrails the checked text, then the usage. */
  function Closing(opts: Options, o: Output): seq<Event> {
    (if opts.checksOutput && o.text != "" then [Delta(o.text)] else []) + [Done(o.usage)]
  }

  /** A run succeeds only on a reply without tool calls; an exhausted budget without such a text is an error. */
  lemma OkOnlyOnAnswer(w: World, opts: Options, replies: seq<Response>)
    requires |replies| == opts.maxSteps || (replies != [] && Last(replies).message.toolCalls == [])
    ensures var o := Outcome(w, opts, replies);
      && (o.Ok? ==>
           && replies != [] && Last(replies).message.toolCalls == []
           && o.value.usage == TotalUsage(replies) && o.value.steps == |replies|)
      && (|replies| == opts.maxSteps && (replies == [] || Last(replies).message.toolCalls != [] || TextOf(Last(replies).message) == "") ==>
           o == Err(DidNotFinish(opts.maxSteps)))
  {
  }

  /** After the loop: the step budget, the output guardrails, the closing events. */
  method Conclude(w: World, opts: Options, ghost opening: seq<Message>, t: Trace, usage: Usage, finalText: string, answered: bool)
    returns (result: Result<Output, RunError>, t': Trace)
    requires LoopOk(w, opts, opening, t, usage, finalText, answered) && (answered || |t.replies| == opts.maxSteps)
    ensures result == Outcome(w, opts, t.replies)
    ensures t' == t.(events := t.events + if result.Ok? then Closing(opts, result.value) else [])
  {
    hide RequestsOk, Successes, EventsUpTo;
    assert t.events + [] == t.events;
    if |t.replies| == opts.maxSteps && finalText == "" {
      return Err(DidNotFinish(opts.maxSteps)), t;
    }
    var text, closing := finalText, [];
    if opts.checksOutput {
      var checked := w.guard(finalText);
      if checked.Err? { return Err(checked.error), t; }
      text := checked.value;
      if text != "" { closing := [Delta(text)]; }
    }
    t' := t.(events := t.events + (closing + [Done(usage)]));
    result := Ok(Output(text, usage, |t.replies|));
  }

  lemma OnlyCheckedTextIsShown(w: World, opts: Options, n: nat, o: Output)
    requires opts.checksOutput
    ensures forall e :: e in EventsUpTo(w, true, n) + Closing(opts, o) && Raw(e) ==> e == Delta(o.text)
  {
    BufferedShowsNothingRaw(w, n);
  }

  /** Everything emitted over a run. */
  function AllEvents(w: World, opts: Options, t: Trace, result: Result<Output, RunError>): seq<Event> {
    EventsUpTo(w, opts.checksOutput, t.attempts) + if result.Ok? then Closing(opts, result.value) else []
  }

  /** A run, from its opening to its result. */
  ghost predicate RunOk(w: World, opts: Options, opening: seq<Message>, t: Trace, result: Result<Output, RunError>) {
    // the budget bounds replies and model calls, and every request is the one specified
    && |t.replies| <= |t.requests| <= opts.maxSteps
    && t.attempts <= |t.requests| * (opts.stepRetries + 1)
    && RequestsOk(w, opts, opening, t.replies, t.requests)
    // replies and events are exactly those of the calls made, in order
    && t.replies == Successes(w, t.attempts)
    && t.events == AllEvents(w, opts, t, result)
    // only the last reply can be without tool calls
    && (forall k :: 0 <= k < |t.replies| - 1 ==> t.replies[k].message.toolCalls != [])
    // either a model call failed for good, or the loop stopped on an answer or an exhausted budget
    && if |t.requests| > |t.replies| then
        result.Err? && StepFailed(w, opts, opening, t, result.error)
      else
        && (|t.replies| == opts.maxSteps || (t.replies != [] && Last(t.replies).message.toolCalls == []))
        && result == Outcome(w, opts, t.replies)
        && Transient(w, opts.stepRetries, t.attempts) && Settled(w, t.attempts)
  }

  lemma FailedRun(w: World, opts: Options, opening: seq<Message>, t: Trace, error: RunError)
    requires StepFailed(w, opts, opening, t, error)
    ensures RunOk(w, opts, opening, t, Err(error))
  {
    hide RequestsOk, Reply, Outcome, EventsUpTo, Successes, Transient, Settled, FailsInRow;
    MaxAttemptsIsProduct(|t.requests|, opts.stepRetries);
    assert EventsUpTo(w, opts.checksOutput, t.attempts) + [] == EventsUpTo(w, opts.checksOutput, t.attempts);
  }

  lemma FinishedRun(w: World, opts: Options, opening: seq<Message>, t: Trace, usage: Usage, finalText: string, answered: bool,
                    t': Trace, result: Result<Output, RunError>)
    requires LoopOk(w, opts, opening, t, usage, finalText, answered) && (answered || |t.replies| == opts.maxSteps)
    requires result == Outcome(w, opts, t.replies)
    requires t' == t.(events := t.events + if result.Ok? then Closing(opts, result.value) else [])
    ensures RunOk(w, opts, opening, t', result)
  {
    hide RequestsOk, Reply, Outcome, EventsUpTo, Successes, TextOf, TotalUsage, Closing, Transient, Settled;
    MaxAttemptsIsProduct(|t.requests|, opts.stepRetries);
  }

  method RunAgent(w: World, opts: Options, opening: seq<Message>)
    returns (result: Result<Output, RunError>, t: Trace)
    ensures RunOk(w, opts, opening, t, result)
  {
    hide RequestsOk, HistoryAfter, StepFailed, RunOk, Outcome, TotalUsage;
    var messages := opening;
    var usage := NO_USAGE;
    var finalText, answered := "", false;
    t := Trace([], [], 0, []);
    NothingSent(w, opts, opening);
    while |t.replies| < opts.maxSteps && !answered
      invariant LoopOk(w, opts, opening, t, usage, finalText, answered)
      invariant !answered ==> messages == HistoryAfter(w, opts, opening, t.replies)
      decreases opts.maxSteps - |t.replies|
    {
      var failed;
      failed, t, usage, messages, finalText, answered := Step(w, opts, opening, t, usage, messages);
      if failed.Some? {
        FailedRun(w, opts, opening, t, failed.value);
        return Err(failed.value), t;
      }
    }
    ghost var looped := t;
    result, t := Conclude(w, opts, opening, t, usage, finalText, answered);
    FinishedRun(w, opts, opening, looped, usage, finalText, answered, t, result);
  }

  /** An error that is not the provider's ends the run at once, as does one more in a row than may be retried. */
  lemma PermanentErrorEndsTheRun(w: World, opts: Options, opening: seq<Message>, t: Trace, result: Result<Output, RunError>, k: nat)
    requires RunOk(w, opts, opening, t, result) && k < t.attempts && Failed(w, k)
    requires !Reply(w.open(k)).error.Provider? || FailsInRow(w, k + 1) > opts.stepRetries
    ensures k == t.attempts - 1 && result == Err(Reply(w.open(k)).error)
  {
    hide Reply, RequestsOk, Outcome, AllEvents, Successes, EventsUpTo, FailsInRow;
    assert !Tolerated(w, opts.stepRetries, k);
  }

  lemma {:induction false} SuccessesGrow(w: World, m: nat, n: nat)
    requires m <= n
    ensures Successes(w, m) <= Successes(w, n)
    ensures m < n && !Failed(w, n - 1) ==> |Successes(w, m)| < |Successes(w, n)|
    decreases n
  {
    if m < n { SuccessesGrow(w, m, n - 1); }
  }

  lemma EarlierCallsAreTolerated(w: World, opts: Options, opening: seq<Message>, t: Trace, result: Result<Output, RunError>, k: nat)
    requires RunOk(w, opts, opening, t, result) && k + 1 < t.attempts
    ensures Tolerated(w, opts.stepRetries, k)
  {
    hide Reply, RequestsOk, Outcome, AllEvents, Successes, EventsUpTo, FailsInRow, Tolerated;
  }

  lemma FailureIsNotTolerated(w: World, opts: Options, t: Trace, error: RunError)
    requires AccountedFailure(w, opts, t, error)
    ensures 0 < t.attempts && !Tolerated(w, opts.stepRetries, t.attempts - 1)
  {
    hide Reply, EventsUpTo, Successes, FailsInRow, Transient;
  }

  /** A finished run's replies leave no room for another: its last is an answer, or the budget is used up. */
  lemma FinishedLeavesNoRoom(w: World, opts: Options, opening: seq<Message>, t: Trace, result: Result<Output, RunError>,
                             u: Trace, other: Result<Output, RunError>)
    requires RunOk(w, opts, opening, t, result) && RunOk(w, opts, opening, u, other)
    requires |t.requests| <= |t.replies| && t.replies <= u.replies
    ensures |t.replies| == |u.replies| == |u.requests|
  {
    hide RequestsOk, Reply, Outcome, AllEvents, EventsUpTo, Successes, Accounted, AccountedFailure, Transient, Settled;
    if t.replies != [] { assert u.replies[|t.replies| - 1] == Last(t.replies); }
  }

  lemma FinishedIsSettled(w: World, opts: Options, opening: seq<Message>, t: Trace, result: Result<Output, RunError>)
    requires RunOk(w, opts, opening, t, result) && |t.requests| <= |t.replies|
    ensures Settled(w, t.attempts)
  {
    hide RequestsOk, Reply, Outcome, AllEvents, EventsUpTo, Successes, Transient, Settled;
  }

  lemma RunFacts(w: World, opts: Options, opening: seq<Message>, t: Trace, result: Result<Output, RunError>)
    requires RunOk(w, opts, opening, t, result)
    ensures t.replies == Successes(w, t.attempts) && t.events == AllEvents(w, opts, t, result)
    ensures RequestsOk(w, opts, opening, t.replies, t.requests)
    ensures |t.requests| > |t.replies| ==> |t.requests| == |t.replies| + 1 && result.Err? && AccountedFailure(w, opts, t, result.error)
    ensures |t.requests| <= |t.replies| ==> |t.requests| == |t.replies| && result == Outcome(w, opts, t.replies)
  {
    hide RequestsOk, Reply, Outcome, AllEvents, EventsUpTo, Successes, AccountedFailure, Transient, Settled;
  }

  lemma SettledGrows(w: World, m: nat, n: nat)
    requires m < n && Settled(w, n)
    ensures |Successes(w, m)| < |Successes(w, n)|
  {
    SuccessesGrow(w, m, n);
  }

  lemma FinishedStops(w: World, opts: Options, opening: seq<Message>, t: Trace, result: Result<Output, RunError>,
                      u: Trace, other: Result<Output, RunError>)
    requires RunOk(w, opts, opening, t, result) && RunOk(w, opts, opening, u, other)
    requires |t.requests| <= |t.replies| && t.attempts <= u.attempts
    ensures t.attempts == u.attempts
  {
    hide *;
    RunFacts(w, opts, opening, t, result);
    RunFacts(w, opts, opening, u, other);
    SuccessesGrow(w, t.attempts, u.attempts);
    FinishedLeavesNoRoom(w, opts, opening, t, result, u, other);
    FinishedIsSettled(w, opts, opening, u, other);
    if t.attempts < u.attempts { SettledGrows(w, t.attempts, u.attempts); }
  }

  /** The calls a run makes are determined: no run goes on past where another ends. */
  lemma RunsStopAlike(w: World, opts: Options, opening: seq<Message>, t: Trace, result: Result<Output, RunError>,
                      u: Trace, other: Result<Output, RunError>)
    requires RunOk(w, opts, opening, t, result) && RunOk(w, opts, opening, u, other)
    ensures t.attempts >= u.attempts
  {
    hide *;
    RunFacts(w, opts, opening, t, result);
    if t.attempts < u.attempts {
      if |t.requests| > |t.replies| {
        FailureIsNotTolerated(w, opts, t, result.error);
        EarlierCallsAreTolerated(w, opts, opening, u, other, t.attempts - 1);
      } else {
        FinishedStops(w, opts, opening, t, result, u, other);
      }
    }
  }

  lemma SameRequests(w: World, opts: Options, opening: seq<Message>, replies: seq<Response>, a: seq<seq<Message>>, b: seq<seq<Message>>)
    requires RequestsOk(w, opts, opening, replies, a) && RequestsOk(w, opts, opening, replies, b) && |a| == |b|
    ensures a == b
  {
    hide Request, HistoryAfter;
  }

  /** For given model replies, tools, guardrails and options there is no other such run than the one `RunAgent` makes. */
  lemma RunIsDetermined(w: World, opts: Options, opening: seq<Message>, t: Trace, result: Result<Output, RunError>,
                        u: Trace, other: Result<Output, RunError>)
    requires RunOk(w, opts, opening, t, result) && RunOk(w, opts, opening, u, other)
    ensures t == u && result == other
  {
    RunsStopAlike(w, opts, opening, t, result, u, other);
    RunsStopAlike(w, opts, opening, u, other, t, result);
    RunFacts(w, opts, opening, t, result);
    RunFacts(w, opts, opening, u, other);
    EndsAlike(w, opts, opening, t, result, u, other);
    EndsAlike(w, opts, opening, u, other, t, result);
    SameError(w, opts, t, result, u, other);
    hide RunOk, RequestsOk, Outcome, Successes, AccountedFailure, EventsUpTo;
    SameRequests(w, opts, opening, t.replies, t.requests, u.requests);
  }

  lemma SameError(w: World, opts: Options, t: Trace, result: Result<Output, RunError>, u: Trace, other: Result<Output, RunError>)
    requires t.attempts == u.attempts
    ensures result.Err? && AccountedFailure(w, opts, t, result.error) && other.Err? && AccountedFailure(w, opts, u, other.error)
      ==> result == other
  {
    hide Reply, EventsUpTo, Successes, FailsInRow, Transient;
  }

  lemma EndsAlike(w: World, opts: Options, opening: seq<Message>, t: Trace, result: Result<Output, RunError>,
                  u: Trace, other: Result<Output, RunError>)
    requires RunOk(w, opts, opening, t, result) && RunOk(w, opts, opening, u, other) && t.attempts == u.attempts
    ensures |t.requests| <= |t.replies| ==> |u.requests| <= |u.replies|
  {
    RunFacts(w, opts, opening, t, result);
    RunFacts(w, opts, opening, u, other);
    if |t.requests| <= |t.replies| {
      hide *;
      FinishedLeavesNoRoom(w, opts, opening, t, result, u, other);
    }
  }

  /** Success needs an answer without tool calls, and reports the usage of all replies. */
  lemma OkMeansAnswered(w: World, opts: Options, opening: seq<Message>, t: Trace, result: Result<Output, RunError>)
    requires RunOk(w, opts, opening, t, result) && result.Ok?
    ensures t.replies != [] && Last(t.replies).message.toolCalls == []
    ensures result.value.usage == TotalUsage(t.replies) && result.value.steps == |t.replies| == |t.requests|
  {
    OkOnlyOnAnswer(w, opts, t.replies);
  }

  /** The text a caller gets is the last reply's content, or what the output guardrails made of it. */
  lemma ResultIsTheCheckedAnswer(w: World, opts: Options, opening: seq<Message>, t: Trace, result: Result<Output, RunError>)
    requires RunOk(w, opts, opening, t, result) && result.Ok?
    ensures t.replies != []
    ensures var c := Last(t.replies).message.content;
      var answer := if c == None then "" else c.value;
      if opts.checksOutput then w.guard(answer) == Ok(result.value.text) else result.value.text == answer
  {
    OkMeansAnswered(w, opts, opening, t, result);
    RunFacts(w, opts, opening, t, result);
    hide *;
    OutcomeText(w, opts, t.replies);
  }

  lemma OutcomeText(w: World, opts: Options, replies: seq<Response>)
    requires replies != [] && Last(replies).message.toolCalls == [] && Outcome(w, opts, replies).Ok?
    ensures var c := Last(replies).message.content;
      var answer := if c == None then "" else c.value;
      var text := Outcome(w, opts, replies).value.text;
      if opts.checksOutput then w.guard(answer) == Ok(text) else text == answer
  {
  }

  /** A finished run with an answer to give fails exactly if the output guardrails refuse it, with their error. */
  lemma GuardDecides(w: World, opts: Options, opening: seq<Message>, t: Trace, result: Result<Output, RunError>)
    requires RunOk(w, opts, opening, t, result) && |t.requests| == |t.replies| > 0 && Last(t.replies).message.toolCalls == []
    ensures var c := Last(t.replies).message.content;
      var answer := if c == None then "" else c.value;
      if |t.replies| == opts.maxSteps && answer == "" then result == Err(DidNotFinish(opts.maxSteps))
      else if opts.checksOutput && w.guard(answer).Err? then result == Err(w.guard(answer).error)
      else result.Ok?
  {
  }

  /** With output guardrails the only model text a run shows is the text they returned for the answer. */
  lemma NothingUncheckedIsShown(w: World, opts: Options, opening: seq<Message>, t: Trace, result: Result<Output, RunError>)
    requires RunOk(w, opts, opening, t, result) && opts.checksOutput
    ensures forall e :: e in t.events && Raw(e) ==>
      && result.Ok? && t.replies != []
      && var c := Last(t.replies).message.content;
        var checked := w.guard(if c == None then "" else c.value);
        checked.Ok? && e == Delta(checked.value)
  {
    if result.Ok? { ResultIsTheCheckedAnswer(w, opts, opening, t, result); }
    BufferedShowsNothingRaw(w, t.attempts);
    if result.Ok? {
      OnlyCheckedTextIsShown(w, opts, t.attempts, result.value);
    } else {
      assert EventsUpTo(w, true, t.attempts) + [] == EventsUpTo(w, true, t.attempts);
    }
  }

  // ---- what a whole run guarantees ----

  /** The system prompt, the retrieved grounding if any, and the user turn. */
  function Opening(instructions: string, grounding: Option<string>, prompt: string): seq<Message> {
    [Message(System, Some(instructions), [], None, None)]
    + (if grounding.Some? then [Message(System, grounding, [], None, None)] else [])
    + [Message(User, Some(prompt), [], None, None)]
  }

  lemma OpeningIsPreamble(instructions: string, grounding: Option<string>, prompt: string)
    ensures var o := Opening(instructions, grounding, prompt); Preamble(o) == o && Tail(o) == []
  {
    var o := Opening(instructions, grounding, prompt);
    var user := [Message(User, Some(prompt), [], None, None)];
    assert PreambleLen(user) == 1;
    if grounding.Some? {
      assert o[1..][1..] == user;
      assert o[1..][0].role.System?;
    } else {
      assert o[1..] == user;
    }
    assert PreambleLen(o) == |o|;
  }

  lemma OpeningAt(instructions: string, grounding: Option<string>, prompt: string)
    ensures var o := Opening(instructions, grounding, prompt);
      && |o| == (if grounding.None? then 2 else 3)
      && o[0] == Message(System, Some(instructions), [], None, None)
      && o[|o| - 1] == Message(User, Some(prompt), [], None, None)
      && (grounding.Some? ==> o[1] == Message(System, grounding, [], None, None))
  {
  }

  lemma RequestIsSound(w: World, opts: Options, instructions: string, grounding: Option<string>, prompt: string,
                         replies: seq<Response>, k: nat)
    requires forall i :: 0 <= i < |replies| ==> replies[i].message.role.Assistant?
    ensures var opening := Opening(instructions, grounding, prompt);
      var rounds := RoundsOf(w, replies);
      var sent := Request(opts, k, LoopHistory(opts.budget, opening, rounds));
      var kept := Compacted(opts.budget, FullHistory(opening, rounds));
      && sent == kept + (if k + 1 == opts.maxSteps && opts.hasTools then [NOTE] else [])
      && opening <= kept && AllPaired(kept)
      && (opts.budget.Fits(kept) || kept == opening)
  {
    var opening := Opening(instructions, grounding, prompt);
    var rounds := RoundsOf(w, replies);
    forall i | 0 <= i < |rounds| ensures Paired(rounds[i]) {
      RoundIsPaired(w, i, replies[i]);
    }
    LoopCompactsLikeOneShot(opts.budget, opening, rounds);
    OpeningIsPreamble(instructions, grounding, prompt);
    var h := LoopHistory(opts.budget, opening, rounds);
    LoopHistoryIsPaired(opts.budget, opening, rounds);
    CompactKeepsPairs(opts.budget, h);
    CompactedShape(opts.budget, h);
    CompactDropsShortestPrefix(opts.budget, h);
  }

  /**
   * Every request of every run, provided the model answers with assistant messages: it is the one-shot
   * compaction of the whole conversation so far, starts with the untouched opening, pairs every call with
   * its results, and fits the budget unless the opening alone does not (the forced last step adds its note).
   */
  lemma RequestsAreSound(w: World, opts: Options, instructions: string, grounding: Option<string>, prompt: string,
                         t: Trace, result: Result<Output, RunError>, k: nat)
    requires RunOk(w, opts, Opening(instructions, grounding, prompt), t, result) && k < |t.requests|
    requires forall i :: 0 <= i < |t.replies| ==> t.replies[i].message.role.Assistant?
    ensures var opening := Opening(instructions, grounding, prompt);
      var kept := Compacted(opts.budget, FullHistory(opening, RoundsOf(w, t.replies[..k])));
      && t.requests[k] == kept + (if k + 1 == opts.maxSteps && opts.hasTools then [NOTE] else [])
      && opening <= kept && AllPaired(kept)
      && (opts.budget.toolsOverhead + opts.budget.Tokens(kept) <= opts.budget.maxPromptTokens || kept == opening)
    // so every request carries the instructions, the grounding and the prompt
    ensures var sent := t.requests[k];
      && |sent| >= 2 && sent[0] == Message(System, Some(instructions), [], None, None)
      && if grounding.None? then sent[1] == Message(User, Some(prompt), [], None, None)
         else
           && |sent| >= 3 && sent[1] == Message(System, grounding, [], None, None)
           && sent[2] == Message(User, Some(prompt), [], None, None)
  {
    OpeningAt(instructions, grounding, prompt);
    hide Compacted, FullHistory, LoopHistory, AllPaired, Opening, Outcome, Successes, AllEvents, StepFailed;
    RequestIsSound(w, opts, instructions, grounding, prompt, t.replies[..k], k);
  }
}
