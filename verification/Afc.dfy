/**
 The automatic function-calling loops: rounds of provider call and tool execution over a
 growing transcript, native or emulated through JSON envelopes.
 */
module Afc {
  import opened Errors
  import opened JsonValue
  import opened Messages
  import opened Prelude
  import opened ToolExec
  import GeminiParser

  datatype Executed = Executed(call: ToolCall, output: ToolOutput)

  /** `meta` stands for the response fields the loops pass through. */
  datatype Response = Response(message: Message, executed: seq<Executed>, meta: string)

  type Reply = Result<Response, Error>

  /** What the provider is sent: the transcript, and whether function calling is automatic. */
  datatype Request = Request(messages: seq<Message>, auto: bool)

  predicate RequestValid(ms: seq<Message>) {
    forall i | 0 <= i < |ms| :: MessageValid(ms[i])
  }

  /** One provider call. */
  datatype Exchange = Exchange(sent: Request, reply: Reply)

  /** The provider: any reply, depending on the round and on everything sent so far. */
  type Provider = (seq<Exchange>, Request) -> Reply

  const EXHAUSTED := Provider(ProviderError(Other, "afc_loop_exhausted", None, None))

  // ---------------------------------------------------------------- tools

  /**
   The registered handlers, the calls they panic on, and the order in which a batch finishes. All
   may depend on the exchanges before the batch's round, and on a call's position in its batch.
   */
  datatype Tools = Tools(
    handlers: map<string, seq<Exchange> -> Handler>,
    panics: (seq<Exchange>, nat, ToolCall) -> bool,
    finish: (seq<Exchange>, seq<ToolCall>) -> seq<nat>)

  /** The handlers as they behave after `past`. */
  function HandlersAt(t: Tools, past: seq<Exchange>): Handlers {
    map name | name in t.handlers :: t.handlers[name](past)
  }

  function InOrder(n: nat): (r: seq<nat>)
    ensures IsPermutation(r, n)
  {
    CountingUp(n);
    seq(n, i => i)
  }

  lemma {:induction false} CountingUp(n: nat)
    ensures var r: seq<nat> := seq(n, i => i); IsPermutation(r, n)
  {
    var r: seq<nat> := seq(n, i => i);
    forall k: nat | k < n ensures k in r { assert r[k] == k; }
  }

  /** The order `finish` names when it is an order of the whole batch, and call order otherwise. */
  function FinishOrder(t: Tools, past: seq<Exchange>, calls: seq<ToolCall>): (order: seq<nat>)
    ensures IsPermutation(order, |calls|)
  {
    var order := t.finish(past, calls);
    if IsPermutation(order, |calls|) then order else InOrder(|calls|)
  }

  function BatchOf(t: Tools, past: seq<Exchange>, calls: seq<ToolCall>): (b: Batch)
    ensures ValidBatch(b)
  {
    Batch(
      calls,
      HandlersAt(t, past),
      seq(|calls|, i requires 0 <= i < |calls| => t.panics(past, i, calls[i])))
  }

  /** What executing a batch returns: one result per call, or None when the batch aborts. */
  function Outcome(t: Tools, past: seq<Exchange>, calls: seq<ToolCall>): (r: Option<seq<ToolResult>>)
    ensures r.Some? ==> |r.value| == |calls|
  {
    var slots := JoinAll(BatchOf(t, past, calls), EmptySlots(|calls|), FinishOrder(t, past, calls));
    if AllFilled(slots) then Some(seq(|slots|, k requires 0 <= k < |slots| => slots[k].value)) else None
  }

  method RunTools(t: Tools, past: seq<Exchange>, calls: seq<ToolCall>) returns (results: Option<seq<ToolResult>>)
    ensures results == Outcome(t, past, calls)
  {
    hide JoinAll, IsPermutation;
    var aborted, r := ExecuteToolsParallel(BatchOf(t, past, calls), FinishOrder(t, past, calls));
    if aborted { return None; }
    assert r == Outcome(t, past, calls).value;
    return Some(r);
  }

  /** The result the `k`-th call of a batch is promised. */
  function Promised(t: Tools, past: seq<Exchange>, calls: seq<ToolCall>, k: nat): ToolResult
    requires k < |calls|
  {
    if t.panics(past, k, calls[k]) then PanicResult() else Expected(calls[k], k, HandlersAt(t, past))
  }

  predicate PanicsLead(t: Tools, past: seq<Exchange>, calls: seq<ToolCall>) {
    forall i, j | 0 <= i < j < |calls| && t.panics(past, j, calls[j]) :: t.panics(past, i, calls[i])
  }

  /** A batch whose panicking calls come first returns every call what it is promised. */
  lemma {:induction false} LeadingPanicsReturn(t: Tools, past: seq<Exchange>, calls: seq<ToolCall>)
    requires PanicsLead(t, past, calls)
    ensures Outcome(t, past, calls).Some?
    ensures forall k | 0 <= k < |calls| :: Outcome(t, past, calls).value[k] == Promised(t, past, calls, k)
  {
    hide JoinAll, IsPermutation, Expected;
    LeadingPanicsAreContained(BatchOf(t, past, calls), FinishOrder(t, past, calls));
  }

  // ---------------------------------------------------------------- native loop

  /** A way of executing batches after the exchanges so far: the results, or None when the batch aborts. */
  type Executor = (seq<Exchange>, seq<ToolCall>) -> Option<seq<ToolResult>>

  /** What a call of the loop is made with; `names` are those of the registered handlers. */
  datatype Setup = Setup(names: set<string>, exec: Executor, provider: Provider, base: seq<Message>, auto: bool)

  function ExecutorOf(t: Tools): Executor {
    (past, calls) => Outcome(t, past, calls)
  }

  /** The setup's batches are those of the tools. */
  ghost predicate Runs(s: Setup, t: Tools) {
    s.names == t.handlers.Keys && s.exec == ExecutorOf(t)
  }

  /** One result per call; any other number of results is an abort. */
  function Ran(s: Setup, past: seq<Exchange>, calls: seq<ToolCall>): (r: Option<seq<ToolResult>>)
    ensures r.Some? ==> |r.value| == |calls|
  {
    var results := s.exec(past, calls);
    if results.Some? && |results.value| == |calls| then results else None
  }

  predicate Runnable(s: Setup, reply: Reply) {
    && reply.Ok? && s.auto
    && reply.value.message.toolCalls != []
    && forall c <- reply.value.message.toolCalls :: c.name in s.names
  }

  /** A complete round: the reply is runnable and its batch does not abort. */
  predicate Complete(s: Setup, past: seq<Exchange>, reply: Reply) {
    Runnable(s, reply) && Ran(s, past, reply.value.message.toolCalls).Some?
  }

  function ResultsOf(s: Setup, past: seq<Exchange>, reply: Reply): (r: seq<ToolResult>)
    requires Complete(s, past, reply)
    ensures |r| == |reply.value.message.toolCalls|
  {
    Ran(s, past, reply.value.message.toolCalls).value
  }

  function OutputOf(r: ToolResult): ToolOutput {
    ToolOutput(r.content, r.isError, r.structured)
  }

  function ToolMessages(results: seq<ToolResult>): (ms: seq<Message>)
    ensures |ms| == |results|
  {
    seq(|results|, i requires 0 <= i < |results| => ToolMessage(results[i]))
  }

  /** What a complete round adds to the transcript: the reply's own turn, then one result per call. */
  function RoundMessages(s: Setup, past: seq<Exchange>, reply: Reply): seq<Message>
    requires Complete(s, past, reply)
  {
    var m := reply.value.message;
    [AssistantWithTools(m.content, m.toolCalls)] + ToolMessages(ResultsOf(s, past, reply))
  }

  function Paired(calls: seq<ToolCall>, results: seq<ToolResult>, n: nat): (r: seq<Executed>)
    requires n <= |calls| == |results|
    ensures |r| == n
  {
    seq(n, i requires 0 <= i < n => Executed(calls[i], OutputOf(results[i])))
  }

  function RoundExecuted(s: Setup, past: seq<Exchange>, reply: Reply): seq<Executed>
    requires Complete(s, past, reply)
  {
    var calls := reply.value.message.toolCalls;
    Paired(calls, ResultsOf(s, past, reply), |calls|)
  }

  predicate AllComplete(s: Setup, trace: seq<Exchange>) {
    trace == [] ||
    var n := |trace| - 1;
    AllComplete(s, trace[..n]) && Complete(s, trace[..n], trace[n].reply)
  }

  function Transcript(s: Setup, trace: seq<Exchange>): seq<Message>
    requires AllComplete(s, trace)
  {
    if trace == [] then []
    else
      var n := |trace| - 1;
      Transcript(s, trace[..n]) + RoundMessages(s, trace[..n], trace[n].reply)
  }

  function ExecutedIn(s: Setup, trace: seq<Exchange>): seq<Executed>
    requires AllComplete(s, trace)
  {
    if trace == [] then []
    else
      var n := |trace| - 1;
      ExecutedIn(s, trace[..n]) + RoundExecuted(s, trace[..n], trace[n].reply)
  }

  function Sends(s: Setup, trace: seq<Exchange>): Request
    requires AllComplete(s, trace)
  {
    Request(s.base + Transcript(s, trace), s.auto)
  }

  /** The `i`-th call got the original messages and the complete rounds before it, and the provider's reply. */
  ghost predicate SentAndReplied(s: Setup, trace: seq<Exchange>, i: nat)
    requires i < |trace|
  {
    && AllComplete(s, trace[..i])
    && trace[i].sent == Sends(s, trace[..i])
    && trace[i].reply == s.provider(trace[..i], trace[i].sent)
  }

  ghost predicate IsLoop(s: Setup, trace: seq<Exchange>) {
    forall i | 0 <= i < |trace| :: SentAndReplied(s, trace, i)
  }

  function Attach(resp: Response, executed: seq<Executed>): Response {
    if executed == [] then resp else resp.(executed := executed)
  }

  /** How a loop ends: with a reply, or aborted by a panic that found no slot of its own. */
  datatype End = Returned(reply: Reply) | Aborted

  function EndOf(s: Setup, reply: Reply, executed: seq<Executed>): End {
    if Runnable(s, reply) then Aborted
    else Returned(match reply case Err(e) => Err(e) case Ok(resp) => Ok(Attach(resp, executed)))
  }

  /** Exhausted when every round was complete, else ended by the last reply. */
  ghost predicate EndsWith(s: Setup, maxRounds: nat, trace: seq<Exchange>, end: End) {
    && |trace| <= maxRounds
    && if AllComplete(s, trace) then |trace| == maxRounds && end == Returned(Err(EXHAUSTED))
       else
         var n := |trace| - 1;
         AllComplete(s, trace[..n]) && end == EndOf(s, trace[n].reply, ExecutedIn(s, trace[..n]))
  }

  method RunNative(s: Setup, t: Tools, maxRounds: nat) returns (end: End, trace: seq<Exchange>)
    requires Runs(s, t)
    ensures IsLoop(s, trace)
    ensures EndsWith(s, maxRounds, trace, end)
  {
    hide IsLoop, RoundMessages, RoundExecuted, AllComplete, Transcript, ExecutedIn, EndsWith, Outcome;
    hide Complete, Runnable, EndOf, ResultsOf, ToolMessages, Paired;
    var messages := s.base;
    var executed: seq<Executed> := [];
    trace := [];
    EmptyLoop(s);
    for round := 0 to maxRounds
      invariant |trace| == round
      invariant IsLoop(s, trace) && AllComplete(s, trace)
      invariant messages == s.base + Transcript(s, trace)
      invariant executed == ExecutedIn(s, trace)
    {
      var request := Request(messages, s.auto);
      var reply := s.provider(trace, request);
      var before := trace;
      ExtendLoop(s, trace);
      if Complete(s, trace, reply) {
        RoundGoesOn(s, trace, Exchange(request, reply));
      } else {
        RoundEnds(s, maxRounds, trace, Exchange(request, reply));
      }
      trace := trace + [Exchange(request, reply)];
      Decides(s, before, reply, executed);
      if reply.Err? { return Returned(Err(reply.error)), trace; }
      var resp := reply.value;
      var calls := resp.message.toolCalls;
      var runnable := s.auto && calls != [] && forall c <- calls :: c.name in s.names;
      if !runnable {
        if executed != [] { resp := resp.(executed := executed); }
        return Returned(Ok(resp)), trace;
      }
      var ran := RunTools(t, before, calls);
      if ran.None? { return Aborted, trace; }
      var results := ran.value;
      var turn, outputs := FoldResults(resp.message.content, calls, results);
      RoundIs(s, before, reply, turn, outputs);
      Associative(s.base, Transcript(s, before), turn);
      messages := messages + turn;
      executed := executed + outputs;
    }
    assert EndsWith(s, maxRounds, trace, Returned(Err(EXHAUSTED))) by { Exhausts(s, trace); }
    return Returned(Err(EXHAUSTED)), trace;
  }

  /** Folds the results of a round into messages and a record of what was executed. */
  method FoldResults(content: Option<Content>, calls: seq<ToolCall>, results: seq<ToolResult>)
    returns (turn: seq<Message>, outputs: seq<Executed>)
    requires |results| == |calls|
    ensures turn == [AssistantWithTools(content, calls)] + ToolMessages(results)
    ensures outputs == Paired(calls, results, |calls|)
  {
    turn := [AssistantWithTools(content, calls)];
    outputs := [];
    for i := 0 to |calls|
      invariant turn == [AssistantWithTools(content, calls)] + ToolMessages(results[..i])
      invariant outputs == Paired(calls, results, i)
    {
      outputs := outputs + [Executed(calls[i], OutputOf(results[i]))];
      turn := turn + [ToolMessage(results[i])];
    }
    assert results[..|calls|] == results;
  }

  /** Which replies make a round, and how the others end the loop. */
  lemma {:induction false} Decides(s: Setup, past: seq<Exchange>, reply: Reply, executed: seq<Executed>)
    ensures reply.Err? ==> !Complete(s, past, reply) && EndOf(s, reply, executed) == Returned(reply)
    ensures reply.Ok? ==>
              var calls := reply.value.message.toolCalls;
              if !(s.auto && calls != [] && forall c <- calls :: c.name in s.names) then
                !Complete(s, past, reply) && EndOf(s, reply, executed) == Returned(Ok(Attach(reply.value, executed)))
              else if Ran(s, past, calls).None? then
                !Complete(s, past, reply) && EndOf(s, reply, executed) == Aborted
              else Complete(s, past, reply) && ResultsOf(s, past, reply) == Ran(s, past, calls).value
  {}

  lemma {:induction false} ExtendLoop(s: Setup, trace: seq<Exchange>)
    requires IsLoop(s, trace) && AllComplete(s, trace)
    ensures IsLoop(s, trace + [Exchange(Sends(s, trace), s.provider(trace, Sends(s, trace)))])
  {
    hide AllComplete, Sends;
    var next := trace + [Exchange(Sends(s, trace), s.provider(trace, Sends(s, trace)))];
    forall i | 0 <= i < |next|
      ensures SentAndReplied(s, next, i)
    {
      if i < |trace| {
        assert next[..i] == trace[..i] && SentAndReplied(s, trace, i);
      } else {
        assert next[..i] == trace;
      }
    }
  }

  /** One more exchange: a complete round. */
  lemma {:induction false} RoundGoesOn(s: Setup, trace: seq<Exchange>, ex: Exchange)
    requires AllComplete(s, trace) && Complete(s, trace, ex.reply)
    ensures var next := trace + [ex];
            && AllComplete(s, next)
            && Transcript(s, next) == Transcript(s, trace) + RoundMessages(s, trace, ex.reply)
            && ExecutedIn(s, next) == ExecutedIn(s, trace) + RoundExecuted(s, trace, ex.reply)
  {
    hide Complete, RoundMessages, RoundExecuted;
    assert (trace + [ex])[..|trace|] == trace;
  }

  /** Or the end of the loop. */
  lemma {:induction false} RoundEnds(s: Setup, maxRounds: nat, trace: seq<Exchange>, ex: Exchange)
    requires AllComplete(s, trace) && !Complete(s, trace, ex.reply) && |trace| < maxRounds
    ensures EndsWith(s, maxRounds, trace + [ex], EndOf(s, ex.reply, ExecutedIn(s, trace)))
  {
    hide Complete, EndOf;
    assert (trace + [ex])[..|trace|] == trace;
  }

  lemma {:induction false} Exhausts(s: Setup, trace: seq<Exchange>)
    requires AllComplete(s, trace)
    ensures EndsWith(s, |trace|, trace, Returned(Err(EXHAUSTED)))
  {}

  lemma {:induction false} RoundIs(
    s: Setup, past: seq<Exchange>, reply: Reply, turn: seq<Message>, outputs: seq<Executed>)
    requires Complete(s, past, reply)
    requires var m := reply.value.message;
             && turn == [AssistantWithTools(m.content, m.toolCalls)] + ToolMessages(ResultsOf(s, past, reply))
             && outputs == Paired(m.toolCalls, ResultsOf(s, past, reply), |m.toolCalls|)
    ensures turn == RoundMessages(s, past, reply) && outputs == RoundExecuted(s, past, reply)
  {}

  lemma {:induction false} EmptyLoop(s: Setup)
    ensures IsLoop(s, []) && AllComplete(s, [])
    ensures s.base + Transcript(s, []) == s.base && ExecutedIn(s, []) == []
  {}

  // ---------------------------------------------------------------- what every native run keeps

  lemma {:induction false} ValidAppend(a: seq<Message>, b: seq<Message>)
    requires RequestValid(a) && RequestValid(b)
    ensures RequestValid(a + b)
  {}

  lemma {:induction false} OneIsValid(m: Message)
    requires MessageValid(m)
    ensures RequestValid([m])
  {}

  lemma {:induction false} RoundIsValid(s: Setup, past: seq<Exchange>, reply: Reply)
    requires Complete(s, past, reply)
    ensures RequestValid(RoundMessages(s, past, reply))
  {
    hide ResultsOf;
  }

  lemma {:induction false} RoundsAreValid(s: Setup, trace: seq<Exchange>)
    requires AllComplete(s, trace) && RequestValid(s.base)
    ensures RequestValid(s.base + Transcript(s, trace))
  {
    hide Complete, RoundMessages, RequestValid;
    if trace == [] {
      assert s.base + [] == s.base;
    } else {
      var n := |trace| - 1;
      RoundsAreValid(s, trace[..n]);
      RoundIsValid(s, trace[..n], trace[n].reply);
      ValidAppend(s.base + Transcript(s, trace[..n]), RoundMessages(s, trace[..n], trace[n].reply));
      Associative(s.base, Transcript(s, trace[..n]), RoundMessages(s, trace[..n], trace[n].reply));
    }
  }

  /** A request that was valid to begin with is valid at every provider call. */
  lemma {:induction false} RequestStaysValid(s: Setup, trace: seq<Exchange>, i: nat)
    requires IsLoop(s, trace) && RequestValid(s.base) && i < |trace|
    ensures RequestValid(trace[i].sent.messages)
  {
    assert SentAndReplied(s, trace, i);
    RoundsAreValid(s, trace[..i]);
  }

  /** Transcripts only grow, by one complete round at a time. */
  lemma {:induction false} TranscriptsGrowByRounds(s: Setup, trace: seq<Exchange>, i: nat)
    requires IsLoop(s, trace) && i + 1 < |trace|
    ensures Complete(s, trace[..i], trace[i].reply)
    ensures trace[i + 1].sent.messages == trace[i].sent.messages + RoundMessages(s, trace[..i], trace[i].reply)
  {
    hide Complete, RoundMessages;
    assert SentAndReplied(s, trace, i);
    assert SentAndReplied(s, trace, i + 1);
    assert trace[..i + 1][i] == trace[i] && trace[..i + 1][..i] == trace[..i];
    Associative(s.base, Transcript(s, trace[..i]), RoundMessages(s, trace[..i], trace[i].reply));
  }

  /**
   Between one provider call and the next the transcript gains the model's turn and then, for the
   `k`-th of its calls, what that call is promised: its handler's output under its own id. This
   holds unless a panicking call comes after one that does not panic.
   */
  lemma {:induction false} CallsAreAnswered(s: Setup, t: Tools, trace: seq<Exchange>, i: nat, k: nat)
    requires Runs(s, t) && IsLoop(s, trace) && i + 1 < |trace|
    requires trace[i].reply.Ok? && k < |trace[i].reply.value.message.toolCalls|
    requires PanicsLead(t, trace[..i], trace[i].reply.value.message.toolCalls)
    ensures var before, after := trace[i].sent.messages, trace[i + 1].sent.messages;
            var m := trace[i].reply.value.message;
            && |after| == |before| + 1 + |m.toolCalls|
            && after[|before|] == AssistantWithTools(m.content, m.toolCalls)
            && after[|before| + 1 + k] == ToolMessage(Promised(t, trace[..i], m.toolCalls, k))
            && (!t.panics(trace[..i], k, m.toolCalls[k]) ==>
                  Promised(t, trace[..i], m.toolCalls, k).toolCallId == m.toolCalls[k].id)
  {
    hide IsLoop, RoundMessages, Complete, PanicsLead, Runs;
    TranscriptsGrowByRounds(s, trace, i);
    RoundAnswers(s, t, trace[..i], trace[i].reply, k);
  }

  lemma {:induction false} ResultsArePromised(s: Setup, t: Tools, past: seq<Exchange>, reply: Reply, k: nat)
    requires Runs(s, t) && Complete(s, past, reply) && k < |reply.value.message.toolCalls|
    requires PanicsLead(t, past, reply.value.message.toolCalls)
    ensures ResultsOf(s, past, reply)[k] == Promised(t, past, reply.value.message.toolCalls, k)
  {
    hide Outcome, PanicsLead, Promised;
    var calls := reply.value.message.toolCalls;
    LeadingPanicsReturn(t, past, calls);
    assert Ran(s, past, calls) == Outcome(t, past, calls);
  }

  lemma {:induction false} RoundAnswers(s: Setup, t: Tools, past: seq<Exchange>, reply: Reply, k: nat)
    requires Runs(s, t) && Complete(s, past, reply) && k < |reply.value.message.toolCalls|
    requires PanicsLead(t, past, reply.value.message.toolCalls)
    ensures var m, turn := reply.value.message, RoundMessages(s, past, reply);
            && |turn| == 1 + |m.toolCalls|
            && turn[0] == AssistantWithTools(m.content, m.toolCalls)
            && turn[1 + k] == ToolMessage(Promised(t, past, m.toolCalls, k))
  {
    hide Runs, Outcome, PanicsLead, Promised, ResultsOf;
    ResultsArePromised(s, t, past, reply, k);
    assert RoundMessages(s, past, reply)[1 + k] == ToolMessages(ResultsOf(s, past, reply))[k];
  }

  // ---------------------------------------------------------------- emulated loop

  /** How replies are read as envelopes, how values are shown, and the texts the loop adds. */
  datatype Emulation = Emulation(
    envelope: string -> Option<Envelope>,
    showContent: Value -> string,
    instruction: string,
    model: string)

  /** A parsed reply: a tool call, or a final answer (a string as it is, any other value as JSON). */
  datatype Envelope = CallTool(name: string, arguments: string) | Final(answer: string)

  /** The call a reply asks for, if it names a registered tool. */
  function CallIn(em: Emulation, s: Setup, reply: Reply): (r: Option<Envelope>)
    ensures r.Some? ==> r.value.CallTool? && reply.Ok?
  {
    if reply.Err? then None
    else
      match em.envelope(TextOf(reply.value.message))
      case Some(CallTool(name, arguments)) =>
        if name in s.names then Some(CallTool(name, arguments)) else None
      case _ => None
  }

  function EmulatedId(k: nat): string {
    "emu-" + GeminiParser.Decimal(k)
  }

  function EmulatedCall(em: Emulation, s: Setup, k: nat, reply: Reply): ToolCall
    requires CallIn(em, s, reply).Some?
  {
    var e := CallIn(em, s, reply).value;
    ToolCall(EmulatedId(k), e.name, e.arguments)
  }

  predicate AllCalls(em: Emulation, s: Setup, trace: seq<Exchange>) {
    forall i | 0 <= i < |trace| :: CallIn(em, s, trace[i].reply).Some?
  }

  /** The result of a batch of one call. */
  function Single(s: Setup, past: seq<Exchange>, call: ToolCall): ToolResult {
    match Ran(s, past, [call]) case Some(results) => results[0] case None => PanicResult()
  }

  /** With the tools of the program it is what the call is promised; such a batch never aborts. */
  lemma {:induction false} SingleIsPromised(s: Setup, t: Tools, past: seq<Exchange>, call: ToolCall)
    requires Runs(s, t)
    ensures Outcome(t, past, [call]) == Some([Promised(t, past, [call], 0)])
    ensures Single(s, past, call) == Promised(t, past, [call], 0)
  {
    hide Outcome, Promised;
    LeadingPanicsReturn(t, past, [call]);
    assert Outcome(t, past, [call]).value == [Promised(t, past, [call], 0)];
    assert Ran(s, past, [call]) == Outcome(t, past, [call]);
  }

  function ResultText(em: Emulation, name: string, result: ToolResult): string {
    "Tool result for " + name + ": " + em.showContent(result.content) + "\nContinue. Reply with one JSON object."
  }

  /** What a round adds: the model's text, then the result as a user message. */
  function EmulatedRound(em: Emulation, s: Setup, past: seq<Exchange>, reply: Reply): seq<Message>
    requires CallIn(em, s, reply).Some?
  {
    var call := EmulatedCall(em, s, |past|, reply);
    [AssistantMessage(TextOf(reply.value.message)), UserMessage(ResultText(em, call.name, Single(s, past, call)))]
  }

  function EmulatedTranscript(em: Emulation, s: Setup, trace: seq<Exchange>): seq<Message>
    requires AllCalls(em, s, trace)
  {
    if trace == [] then []
    else
      var n := |trace| - 1;
      EmulatedTranscript(em, s, trace[..n]) + EmulatedRound(em, s, trace[..n], trace[n].reply)
  }

  function EmulatedExecuted(em: Emulation, s: Setup, trace: seq<Exchange>): (r: seq<Executed>)
    requires AllCalls(em, s, trace)
    ensures |r| == |trace|
  {
    if trace == [] then []
    else
      var n := |trace| - 1;
      var call := EmulatedCall(em, s, n, trace[n].reply);
      EmulatedExecuted(em, s, trace[..n]) + [Executed(call, OutputOf(Single(s, trace[..n], call)))]
  }

  function Opening(em: Emulation, s: Setup): seq<Message> {
    s.base + [UserMessage(em.instruction)]
  }

  /** Every request turns automatic function calling off. */
  function EmulatedSends(em: Emulation, s: Setup, trace: seq<Exchange>): Request
    requires AllCalls(em, s, trace)
  {
    Request(Opening(em, s) + EmulatedTranscript(em, s, trace), false)
  }

  ghost predicate EmulatedSent(em: Emulation, s: Setup, trace: seq<Exchange>, i: nat)
    requires i < |trace|
  {
    && AllCalls(em, s, trace[..i])
    && trace[i].sent == EmulatedSends(em, s, trace[..i])
    && trace[i].reply == s.provider(trace[..i], trace[i].sent)
  }

  ghost predicate IsEmulatedLoop(em: Emulation, s: Setup, trace: seq<Exchange>) {
    forall i | 0 <= i < |trace| :: EmulatedSent(em, s, trace, i)
  }

  function Finalize(em: Emulation, text: string, executed: seq<Executed>): Response {
    Response(AssistantMessage(text), executed, em.model)
  }

  /** The answer a reply that is no runnable call ends the loop with. */
  function AnswerOf(em: Emulation, text: string): string {
    match em.envelope(text) case Some(Final(answer)) => answer case _ => text
  }

  ghost predicate EmulatedEnd(em: Emulation, s: Setup, maxRounds: nat, trace: seq<Exchange>, r: Reply) {
    && |trace| <= maxRounds
    && if AllCalls(em, s, trace) then |trace| == maxRounds && r == Err(EXHAUSTED)
       else
         var n := |trace| - 1;
         && AllCalls(em, s, trace[..n])
         && match trace[n].reply
            case Err(e) => r == Err(e)
            case Ok(resp) =>
              r == Ok(Finalize(em, AnswerOf(em, TextOf(resp.message)), EmulatedExecuted(em, s, trace[..n])))
  }

  method RunJsonEmulated(em: Emulation, s: Setup, t: Tools, maxRounds: nat) returns (r: Reply, trace: seq<Exchange>)
    requires Runs(s, t)
    ensures IsEmulatedLoop(em, s, trace)
    ensures EmulatedEnd(em, s, maxRounds, trace, r)
  {
    hide IsEmulatedLoop, EmulatedId, EmulatedTranscript, EmulatedExecuted, AllCalls, EmulatedRound, Promised, Single;
    hide Outcome;
    hide EmulatedEnd, Opening, ResultText;
    var messages := Opening(em, s);
    var executed: seq<Executed> := [];
    trace := [];
    EmptyEmulated(em, s);
    for round := 0 to maxRounds
      invariant |trace| == round
      invariant IsEmulatedLoop(em, s, trace) && AllCalls(em, s, trace)
      invariant messages == Opening(em, s) + EmulatedTranscript(em, s, trace)
      invariant executed == EmulatedExecuted(em, s, trace)
    {
      var request := Request(messages, false);
      var reply := s.provider(trace, request);
      var before := trace;
      ExtendEmulated(em, s, trace);
      EmulatedRoundEnds(em, s, maxRounds, trace, Exchange(request, reply));
      trace := trace + [Exchange(request, reply)];
      if reply.Err? { return Err(reply.error), trace; }
      var text := TextOf(reply.value.message);
      match em.envelope(text) {
        case Some(Final(answer)) =>
          return Ok(Finalize(em, answer, executed)), trace;
        case Some(CallTool(name, arguments)) =>
          if name !in s.names { return Ok(Finalize(em, text, executed)), trace; }
          var call := ToolCall(EmulatedId(|executed|), name, arguments);
          var ran := RunTools(t, before, [call]);
          SingleIsPromised(s, t, before, call);
          var result := ran.value[0];
          executed := executed + [Executed(call, OutputOf(result))];
          var turn := [AssistantMessage(text), UserMessage(ResultText(em, name, result))];
          assert turn == EmulatedRound(em, s, before, reply) by { EmulatedRoundIs(em, s, before, reply, call); }
          Associative(Opening(em, s), EmulatedTranscript(em, s, before), turn);
          messages := messages + turn;
        case None =>
          return Ok(Finalize(em, text, executed)), trace;
      }
    }
    assert EmulatedEnd(em, s, maxRounds, trace, Err(EXHAUSTED)) by { EmulatedExhausts(em, s, trace); }
    return Err(EXHAUSTED), trace;
  }

  lemma {:induction false} ExtendEmulated(em: Emulation, s: Setup, trace: seq<Exchange>)
    requires IsEmulatedLoop(em, s, trace) && AllCalls(em, s, trace)
    ensures var sent := EmulatedSends(em, s, trace);
            IsEmulatedLoop(em, s, trace + [Exchange(sent, s.provider(trace, sent))])
  {
    hide EmulatedSends, AllCalls;
    var sent := EmulatedSends(em, s, trace);
    var next := trace + [Exchange(sent, s.provider(trace, sent))];
    forall i | 0 <= i < |next|
      ensures EmulatedSent(em, s, next, i)
    {
      if i < |trace| {
        assert next[..i] == trace[..i] && EmulatedSent(em, s, trace, i);
      } else {
        assert next[..i] == trace;
      }
    }
  }

  /** One more exchange: a call that is run, or the end of the loop. */
  lemma {:induction false} EmulatedRoundEnds(
    em: Emulation, s: Setup, maxRounds: nat, trace: seq<Exchange>, ex: Exchange)
    requires AllCalls(em, s, trace) && |trace| < maxRounds
    ensures var next, executed := trace + [ex], EmulatedExecuted(em, s, trace);
            if CallIn(em, s, ex.reply).Some? then
              var call := EmulatedCall(em, s, |trace|, ex.reply);
              && AllCalls(em, s, next)
              && EmulatedExecuted(em, s, next) == executed + [Executed(call, OutputOf(Single(s, trace, call)))]
              && EmulatedTranscript(em, s, next) ==
                 EmulatedTranscript(em, s, trace) + EmulatedRound(em, s, trace, ex.reply)
            else
              EmulatedEnd(
                em, s, maxRounds, next,
                match ex.reply
                case Err(e) => Err(e)
                case Ok(resp) => Ok(Finalize(em, AnswerOf(em, TextOf(resp.message)), executed)))
  {
    hide EmulatedId, EmulatedRound, Single, CallIn, AnswerOf;
    var next := trace + [ex];
    assert next[..|trace|] == trace && next[|trace|] == ex;
  }

  lemma {:induction false} EmulatedRoundIs(em: Emulation, s: Setup, past: seq<Exchange>, reply: Reply, call: ToolCall)
    requires CallIn(em, s, reply).Some? && call == EmulatedCall(em, s, |past|, reply)
    ensures EmulatedRound(em, s, past, reply) ==
            [AssistantMessage(TextOf(reply.value.message)),
             UserMessage(ResultText(em, call.name, Single(s, past, call)))]
  {}

  lemma {:induction false} EmulatedExhausts(em: Emulation, s: Setup, trace: seq<Exchange>)
    requires AllCalls(em, s, trace)
    ensures EmulatedEnd(em, s, |trace|, trace, Err(EXHAUSTED))
  {}

  lemma {:induction false} EmptyEmulated(em: Emulation, s: Setup)
    ensures IsEmulatedLoop(em, s, []) && AllCalls(em, s, [])
    ensures Opening(em, s) + EmulatedTranscript(em, s, []) == Opening(em, s) && EmulatedExecuted(em, s, []) == []
  {}

  lemma {:induction false} ExecutedId(em: Emulation, s: Setup, trace: seq<Exchange>, k: nat)
    requires AllCalls(em, s, trace) && k < |trace|
    ensures EmulatedExecuted(em, s, trace)[k].call.id == EmulatedId(k)
  {
    hide EmulatedId, Single, OutputOf, CallIn;
    if k < |trace| - 1 { ExecutedId(em, s, trace[..|trace| - 1], k); }
  }

  /** The calls an emulated run executes carry distinct ids. */
  lemma {:induction false} EmulatedIdsAreDistinct(em: Emulation, s: Setup, trace: seq<Exchange>, i: nat, j: nat)
    requires AllCalls(em, s, trace) && i < j < |trace|
    ensures EmulatedExecuted(em, s, trace)[i].call.id != EmulatedExecuted(em, s, trace)[j].call.id
  {
    hide EmulatedExecuted;
    ExecutedId(em, s, trace, i);
    ExecutedId(em, s, trace, j);
    var a, b := GeminiParser.Decimal(i), GeminiParser.Decimal(j);
    assert GeminiParser.Number(a) == i && GeminiParser.Number(b) == j;
    assert ("emu-" + a)[4..] == a && ("emu-" + b)[4..] == b;
  }

  lemma {:induction false} EmulatedRoundsAreValid(em: Emulation, s: Setup, trace: seq<Exchange>)
    requires AllCalls(em, s, trace) && RequestValid(s.base)
    ensures RequestValid(Opening(em, s) + EmulatedTranscript(em, s, trace))
  {
    hide CallIn, ResultText, RequestValid, EmulatedRound;
    if trace == [] {
      assert RequestValid([UserMessage(em.instruction)]) by { OneIsValid(UserMessage(em.instruction)); }
      ValidAppend(s.base, [UserMessage(em.instruction)]);
      assert Opening(em, s) + [] == Opening(em, s);
    } else {
      var n := |trace| - 1;
      var round := EmulatedRound(em, s, trace[..n], trace[n].reply);
      EmulatedRoundsAreValid(em, s, trace[..n]);
      EmulatedRoundIsValid(em, s, trace[..n], trace[n].reply);
      ValidAppend(Opening(em, s) + EmulatedTranscript(em, s, trace[..n]), round);
      Associative(Opening(em, s), EmulatedTranscript(em, s, trace[..n]), round);
    }
  }

  lemma {:induction false} EmulatedRoundIsValid(em: Emulation, s: Setup, past: seq<Exchange>, reply: Reply)
    requires CallIn(em, s, reply).Some?
    ensures RequestValid(EmulatedRound(em, s, past, reply))
  {}

  /** A request that was valid to begin with is valid at every call of the emulated loop. */
  lemma {:induction false} EmulatedRequestStaysValid(em: Emulation, s: Setup, trace: seq<Exchange>, i: nat)
    requires IsEmulatedLoop(em, s, trace) && RequestValid(s.base) && i < |trace|
    ensures RequestValid(trace[i].sent.messages)
  {
    assert EmulatedSent(em, s, trace, i);
    EmulatedRoundsAreValid(em, s, trace[..i]);
  }

  // ---------------------------------------------------------------- dispatch

  datatype Config = Config(jsonEmulated: bool, toolNames: seq<string>, maxRounds: nat)

  predicate Emulates(cfg: Config, s: Setup) {
    s.auto && cfg.toolNames != [] && cfg.jsonEmulated && exists name <- cfg.toolNames :: name in s.names
  }

  method RunAfc(cfg: Config, em: Emulation, s: Setup, t: Tools) returns (end: End, trace: seq<Exchange>)
    requires Runs(s, t)
    ensures Emulates(cfg, s) ==>
              IsEmulatedLoop(em, s, trace) && end.Returned? && EmulatedEnd(em, s, cfg.maxRounds, trace, end.reply)
    ensures !Emulates(cfg, s) ==> IsLoop(s, trace) && EndsWith(s, cfg.maxRounds, trace, end)
  {
    if s.auto && cfg.toolNames != [] && cfg.jsonEmulated && exists name <- cfg.toolNames :: name in s.names {
      var r;
      r, trace := RunJsonEmulated(em, s, t, cfg.maxRounds);
      end := Returned(r);
    } else {
      end, trace := RunNative(s, t, cfg.maxRounds);
    }
  }
}
