/**
 The Kiro request's conversation: a message list becomes a history that alternates between user
 and assistant entries, and a current message. The system prompt goes before the first user entry.
 */
module KiroHistory {
  import opened JsonValue
  import opened Messages
  import opened Prelude
  import GeminiParser

  datatype ResultItem = ResultItem(text: string, toolUseId: string)

  /** No results or no uses stand for an absent list. */
  datatype Item =
    | UserItem(content: string, results: seq<ResultItem>)
    | AssistantItem(content: string, uses: seq<ToolCall>)

  datatype Request = Request(history: seq<Item>, content: string, results: seq<ResultItem>)

  const CONTINUE := AssistantItem("Continue", [])
  const PROVIDED := "Tool results provided."
  const BLANK := ResultItem("", "")

  function Join(parts: seq<string>, separator: string): string {
    if parts == [] then ""
    else if |parts| == 1 then parts[0]
    else parts[0] + separator + Join(parts[1..], separator)
  }

  function TextParts(parts: seq<Part>): seq<string> {
    if parts == [] then []
    else (if parts[0].TextPart? then [parts[0].text] else []) + TextParts(parts[1..])
  }

  function FullText(m: Message): string {
    match m.content
    case None => ""
    case Some(Plain(text)) => text
    case Some(Parts(parts)) => Join(TextParts(parts), "\n")
  }

  /** `show`: the serialised form of a value. */
  function ResultText(show: Value -> string, v: Value): string {
    if v.Str? then v.s else show(v)
  }

  function ToResultItem(show: Value -> string, r: ToolResult): ResultItem {
    ResultItem(ResultText(show, r.content), r.toolCallId)
  }

  // ---------------------------------------------------------------- reference

  /** The entry of a message that is not the assistant's. */
  function TurnOf(show: Value -> string, m: Message): (r: Item)
    ensures r.UserItem?
  {
    if m.role.Tool? then
      UserItem(PROVIDED, [if m.toolResult.Some? then ToResultItem(show, m.toolResult.value) else BLANK])
    else UserItem(FullText(m), [])
  }

  function Texts(run: seq<Message>): seq<string> {
    if run == [] then []
    else
      var n := |run| - 1;
      Texts(run[..n]) + if FullText(run[n]) == "" then [] else [FullText(run[n])]
  }

  /** The tool calls of the assistant's messages. */
  function Calls(ms: seq<Message>): seq<ToolCall> {
    if ms == [] then []
    else
      var last := ms[|ms| - 1];
      Calls(ms[..|ms| - 1]) + if last.role.Assistant? then last.toolCalls else []
  }

  /** All that the assistant says between two turns of the user: one entry, or none when it says nothing. */
  function Speech(run: seq<Message>): seq<Item> {
    if Texts(run) == [] && Calls(run) == [] then [] else [AssistantItem(Join(Texts(run), "\n\n"), Calls(run))]
  }

  /** Where the trailing run of assistant messages starts. */
  function RunStart(ms: seq<Message>): (n: nat)
    ensures n <= |ms| && (n > 0 ==> !ms[n - 1].role.Assistant?)
    ensures forall i | n <= i < |ms| :: ms[i].role.Assistant?
  {
    if ms == [] || !ms[|ms| - 1].role.Assistant? then |ms| else RunStart(ms[..|ms| - 1])
  }

  function EndsWithUser(h: seq<Item>): bool {
    h != [] && h[|h| - 1].UserItem?
  }

  function Answered(h: seq<Item>): seq<Item> {
    if EndsWithUser(h) then h + [CONTINUE] else h
  }

  /** The history of `ms`: everything up to the last user turn, then what the assistant said since. */
  function History(show: Value -> string, ms: seq<Message>): seq<Item>
    decreases |ms|, 1
  {
    var n := RunStart(ms);
    UpToTurn(show, ms[..n]) + Speech(ms[n..])
  }

  /** Up to a last turn of the user: two turns with no words between them are separated by a filler. */
  function UpToTurn(show: Value -> string, ms: seq<Message>): (h: seq<Item>)
    ensures h != [] ==> EndsWithUser(h)
    decreases |ms|, 0
  {
    if ms == [] then []
    else Answered(History(show, ms[..|ms| - 1])) + [TurnOf(show, ms[|ms| - 1])]
  }

  /** The prompt goes in front of the first user entry, or becomes one. */
  function WithSystem(h: seq<Item>, prompt: string): seq<Item> {
    if prompt == "" then h
    else
      var i := FirstUser(h);
      if i < |h| then h[i := UserItem(Under(prompt, h[i].content), h[i].results)]
      else [UserItem(prompt, [])] + h
  }

  function Under(prompt: string, content: string): string {
    if content == "" then prompt else prompt + "\n\n" + content
  }

  function FirstUser(h: seq<Item>): (i: nat)
    ensures i <= |h| && (i < |h| ==> h[i].UserItem?)
    ensures forall j | 0 <= j < i :: h[j].AssistantItem?
  {
    if h == [] || h[0].UserItem? then 0
    else
      assert forall j | 1 <= j < |h| :: h[j] == h[1..][j - 1];
      1 + FirstUser(h[1..])
  }

  // ---------------------------------------------------------------- the loops

  method BuildHistory(show: Value -> string, messages: seq<Message>) returns (history: seq<Item>)
    ensures history == History(show, if messages == [] then [] else messages[..|messages| - 1])
  {
    hide History, TurnOf, FullText;
    history := [];
    assert History(show, []) == [] by { NoHistory(show); }
    var n := if messages == [] then 0 else |messages| - 1;
    for i := 0 to n
      invariant history == History(show, messages[..i])
    {
      var msg := messages[i];
      assert messages[..i + 1] == messages[..i] + [msg];
      HistoryExtends(show, messages[..i], msg);
      if msg.role.Assistant? {
        var text := FullText(msg);
        if text == "" && msg.toolCalls == [] { continue; }
        if history != [] && history[|history| - 1].AssistantItem? {
          var merged := MergeAssistant(history[|history| - 1], text, msg.toolCalls);
          history := history[|history| - 1 := merged];
        } else {
          history := history + [AssistantItem(text, msg.toolCalls)];
        }
      } else {
        if history != [] && history[|history| - 1].UserItem? { history := history + [CONTINUE]; }
        history := history + [TurnOf(show, msg)];
      }
    }
  }

  function Merged(prev: Item, text: string, calls: seq<ToolCall>): Item
    requires prev.AssistantItem?
  {
    AssistantItem(
      if text == "" then prev.content else if prev.content == "" then text else prev.content + "\n\n" + text,
      prev.uses + calls)
  }

  method MergeAssistant(prev: Item, text: string, calls: seq<ToolCall>) returns (r: Item)
    requires prev.AssistantItem?
    ensures r == Merged(prev, text, calls)
  {
    r := prev;
    if text != "" {
      r := AssistantItem(if prev.content == "" then text else prev.content + "\n\n" + text, prev.uses);
    }
    if calls != [] { r := AssistantItem(r.content, prev.uses + calls); }
  }

  /** One step of the loop on a history. */
  function Extend(show: Value -> string, h: seq<Item>, m: Message): seq<Item> {
    if !m.role.Assistant? then Answered(h) + [TurnOf(show, m)]
    else if FullText(m) == "" && m.toolCalls == [] then h
    else if h != [] && h[|h| - 1].AssistantItem? then
      h[|h| - 1 := Merged(h[|h| - 1], FullText(m), m.toolCalls)]
    else h + [AssistantItem(FullText(m), m.toolCalls)]
  }

  lemma {:induction false} RunStartAppend(ms: seq<Message>, m: Message)
    ensures RunStart(ms + [m]) == if m.role.Assistant? then RunStart(ms) else |ms| + 1
  {
    assert (ms + [m])[..|ms|] == ms;
  }

  lemma {:induction false} JoinAppend(parts: seq<string>, text: string, separator: string)
    requires parts != []
    ensures Join(parts + [text], separator) == Join(parts, separator) + separator + text
  {
    if |parts| == 1 {
      assert (parts + [text])[1..] == [text];
    } else {
      JoinAppend(parts[1..], text, separator);
      assert (parts + [text])[1..] == parts[1..] + [text];
      assert (parts + [text])[0] == parts[0];
      Associative(parts[0] + separator, Join(parts[1..], separator), separator);
      Associative(parts[0] + separator, Join(parts[1..], separator) + separator, text);
    }
  }

  lemma {:induction false} JoinIsBlank(parts: seq<string>)
    requires forall i | 0 <= i < |parts| :: parts[i] != ""
    ensures Join(parts, "\n\n") == "" <==> parts == []
  {}

  lemma {:induction false} TextsAreNotBlank(run: seq<Message>)
    ensures forall i | 0 <= i < |Texts(run)| :: Texts(run)[i] != ""
  {
    if run != [] { TextsAreNotBlank(run[..|run| - 1]); }
  }

  /** Appending to a run merges into its entry. */
  lemma {:induction false} SpeechAppend(run: seq<Message>, m: Message)
    requires m.role.Assistant?
    ensures Speech(run + [m]) ==
            if FullText(m) == "" && m.toolCalls == [] then Speech(run)
            else if Speech(run) == [] then [AssistantItem(FullText(m), m.toolCalls)]
            else [Merged(Speech(run)[0], FullText(m), m.toolCalls)]
  {
    hide Join;
    assert (run + [m])[..|run|] == run && (run + [m])[|run|] == m;
    TextsAreNotBlank(run);
    JoinIsBlank(Texts(run));
    var text := FullText(m);
    if Texts(run) == [] {
      assert Texts(run) + [text] == [text];
      JoinOne(text);
    } else {
      JoinAppend(Texts(run), text, "\n\n");
    }
    assert Texts(run) + [] == Texts(run) && Calls(run) + [] == Calls(run);
    assert Speech(run) == [] ==> Calls(run) + m.toolCalls == m.toolCalls;
  }

  lemma {:induction false} JoinOne(text: string)
    ensures Join([text], "\n\n") == text
  {}

  lemma {:induction false} SpeechIsOneEntry(run: seq<Message>)
    ensures |Speech(run)| <= 1 && (Speech(run) != [] ==> Speech(run)[0].AssistantItem?)
    ensures Speech([]) == []
  {}

  lemma {:induction false} SpeechExtends(show: Value -> string, lead: seq<Item>, run: seq<Message>, m: Message)
    requires lead == [] || EndsWithUser(lead)
    requires m.role.Assistant?
    ensures Extend(show, lead + Speech(run), m) == lead + Speech(run + [m])
  {
    hide Speech, FullText;
    SpeechAppend(run, m);
    SpeechIsOneEntry(run);
  }

  /** The step of the loop appends a message to the history. */
  lemma {:induction false} HistoryExtends(show: Value -> string, ms: seq<Message>, m: Message)
    ensures History(show, ms + [m]) == Extend(show, History(show, ms), m)
  {
    hide Speech, RunStart, TurnOf, FullText, Extend, UpToTurn;
    RunStartAppend(ms, m);
    var n := RunStart(ms);
    if m.role.Assistant? {
      assert (ms + [m])[n..] == ms[n..] + [m] && (ms + [m])[..n] == ms[..n];
      SpeechExtends(show, UpToTurn(show, ms[..n]), ms[n..], m);
    } else {
      assert (ms + [m])[|ms| + 1..] == [] && (ms + [m])[..|ms| + 1] == ms + [m];
      SpeechIsOneEntry([]);
      TurnExtends(show, ms, m);
    }
  }

  lemma {:induction false} TurnExtends(show: Value -> string, ms: seq<Message>, m: Message)
    requires !m.role.Assistant?
    ensures UpToTurn(show, ms + [m]) == Extend(show, History(show, ms), m)
  {
    hide History;
    assert (ms + [m])[..|ms|] == ms;
  }

  method InjectSystemPrompt(h: seq<Item>, prompt: string) returns (history: seq<Item>)
    ensures history == WithSystem(h, prompt)
  {
    history := h;
    if prompt == "" { return; }
    for i := 0 to |history|
      invariant history == h
      invariant forall j | 0 <= j < i :: h[j].AssistantItem?
    {
      if history[i].UserItem? {
        var content := history[i].content;
        content := if content == "" then prompt else prompt + "\n\n" + content;
        history := history[i := UserItem(content, history[i].results)];
        return;
      }
    }
    history := [UserItem(prompt, [])] + history;
  }

  // ---------------------------------------------------------------- what the history says

  predicate Alternates(h: seq<Item>) {
    forall i | 0 < i < |h| :: h[i].UserItem? != h[i - 1].UserItem?
  }

  function UsesIn(h: seq<Item>): seq<ToolCall> {
    if h == [] then []
    else
      var last := h[|h| - 1];
      UsesIn(h[..|h| - 1]) + if last.AssistantItem? then last.uses else []
  }

  function UserItems(h: seq<Item>): (r: seq<Item>)
    ensures forall i | 0 <= i < |r| :: r[i].UserItem?
  {
    if h == [] then []
    else
      var last := h[|h| - 1];
      UserItems(h[..|h| - 1]) + if last.UserItem? then [last] else []
  }

  /** The entries of the messages that are not the assistant's. */
  function Turns(show: Value -> string, ms: seq<Message>): (r: seq<Item>)
    ensures forall i | 0 <= i < |r| :: r[i].UserItem?
  {
    if ms == [] then []
    else
      var last := ms[|ms| - 1];
      Turns(show, ms[..|ms| - 1]) + if last.role.Assistant? then [] else [TurnOf(show, last)]
  }

  lemma {:induction false} LastOf(h: seq<Item>, x: Item)
    ensures UsesIn(h + [x]) == UsesIn(h) + if x.AssistantItem? then x.uses else []
    ensures UserItems(h + [x]) == UserItems(h) + if x.UserItem? then [x] else []
    ensures Alternates(h) && (h == [] || h[|h| - 1].UserItem? != x.UserItem?) ==> Alternates(h + [x])
  {
    assert (h + [x])[..|h|] == h && (h + [x])[|h|] == x;
  }

  lemma {:induction false} AnsweredKeeps(h: seq<Item>)
    requires Alternates(h)
    ensures Alternates(Answered(h)) && !EndsWithUser(Answered(h))
    ensures UsesIn(Answered(h)) == UsesIn(h) && UserItems(Answered(h)) == UserItems(h)
  {
    hide UsesIn, UserItems, Alternates;
    LastOf(h, CONTINUE);
    assert UsesIn(h) + [] == UsesIn(h) && UserItems(h) + [] == UserItems(h);
  }

  lemma {:induction false} ExtendKeeps(show: Value -> string, h: seq<Item>, m: Message)
    requires Alternates(h)
    ensures var r := Extend(show, h, m);
            && Alternates(r)
            && UsesIn(r) == UsesIn(h) + (if m.role.Assistant? then m.toolCalls else [])
            && UserItems(r) == UserItems(h) + (if m.role.Assistant? then [] else [TurnOf(show, m)])
  {
    hide UsesIn, UserItems, FullText, Alternates, TurnOf;
    assert UsesIn(h) + [] == UsesIn(h) && UserItems(h) + [] == UserItems(h);
    if !m.role.Assistant? {
      AnsweredKeeps(h);
      LastOf(Answered(h), TurnOf(show, m));
    } else if FullText(m) != "" || m.toolCalls != [] {
      if h != [] && h[|h| - 1].AssistantItem? {
        LastReplaced(h, Merged(h[|h| - 1], FullText(m), m.toolCalls), m.toolCalls);
      } else {
        LastOf(h, AssistantItem(FullText(m), m.toolCalls));
      }
    }
  }

  lemma {:induction false} LastReplaced(h: seq<Item>, x: Item, added: seq<ToolCall>)
    requires h != [] && h[|h| - 1].AssistantItem? && x.AssistantItem? && x.uses == h[|h| - 1].uses + added
    requires Alternates(h)
    ensures var r := h[|h| - 1 := x];
            Alternates(r) && UsesIn(r) == UsesIn(h) + added && UserItems(r) == UserItems(h)
  {
    var n := |h| - 1;
    assert h[n := x][..n] == h[..n];
    Associative(UsesIn(h[..n]), h[n].uses, added);
  }

  /** A history alternates; its user entries and tool uses are those of the messages, in order. */
  lemma {:induction false} HistoryIsFaithful(show: Value -> string, ms: seq<Message>)
    ensures var h := History(show, ms);
            Alternates(h) && UsesIn(h) == Calls(ms) && UserItems(h) == Turns(show, ms)
  {
    hide Alternates, UsesIn, UserItems, Extend, TurnOf, History, FullText;
    if ms == [] {
      NoHistory(show);
    } else {
      var n := |ms| - 1;
      HistoryIsFaithful(show, ms[..n]);
      HistoryExtends(show, ms[..n], ms[n]);
      ExtendKeeps(show, History(show, ms[..n]), ms[n]);
      assert ms[..n] + [ms[n]] == ms;
    }
  }

  lemma {:induction false} NoHistory(show: Value -> string)
    ensures History(show, []) == [] && UsesIn([]) == [] && UserItems([]) == [] && Alternates([])
  {}

  lemma {:induction false} NothingIn()
    ensures UsesIn([]) == [] && UserItems([]) == []
  {}

  lemma {:induction false} Prepended(x: Item, h: seq<Item>)
    requires x.UserItem?
    ensures UsesIn([x] + h) == UsesIn(h) && UserItems([x] + h) == [x] + UserItems(h)
  {
    hide UsesIn, UserItems, Alternates;
    NothingIn();
    if h == [] {
      LastOf([], x);
      assert [x] + h == [] + [x];
    } else {
      var n := |h| - 1;
      Prepended(x, h[..n]);
      LastOf(h[..n], h[n]);
      LastOf([x] + h[..n], h[n]);
      assert h[..n] + [h[n]] == h && [x] + h == ([x] + h[..n]) + [h[n]];
      Associative([x], UserItems(h[..n]), if h[n].UserItem? then [h[n]] else []);
    }
  }

  lemma {:induction false} NoUsers(h: seq<Item>)
    requires forall i | 0 <= i < |h| :: h[i].AssistantItem?
    ensures UserItems(h) == []
  {
    if h != [] { NoUsers(h[..|h| - 1]); }
  }

  lemma {:induction false} FirstUserReplaced(h: seq<Item>, i: nat, x: Item)
    requires i < |h| && h[i].UserItem? && x.UserItem? && forall j | 0 <= j < i :: h[j].AssistantItem?
    ensures UserItems(h) != [] && UserItems(h)[0] == h[i] && UserItems(h[i := x]) == UserItems(h)[0 := x]
    ensures UsesIn(h[i := x]) == UsesIn(h)
  {
    var n := |h| - 1;
    if i == n {
      assert h[i := x][..n] == h[..n];
      NoUsers(h[..n]);
    } else {
      assert h[i := x][..n] == h[..n][i := x];
      FirstUserReplaced(h[..n], i, x);
    }
  }

  /** The prompt goes to the user entries as they stand by themselves; nothing else changes. */
  lemma {:induction false} SystemKeeps(h: seq<Item>, prompt: string)
    requires Alternates(h)
    ensures var r := WithSystem(h, prompt);
            Alternates(r) && UsesIn(r) == UsesIn(h) && UserItems(r) == WithSystem(UserItems(h), prompt)
  {
    hide UsesIn, UserItems;
    var i := FirstUser(h);
    if prompt != "" {
      if i < |h| {
        FirstUserReplaced(h, i, UserItem(Under(prompt, h[i].content), h[i].results));
      } else {
        NoUsers(h);
        Prepended(UserItem(prompt, []), h);
      }
    }
  }

  /** For every message list and prompt, the history alternates and keeps every tool call and every turn, in order. */
  lemma {:induction false} HistoryWithPromptIsFaithful(show: Value -> string, ms: seq<Message>, prompt: string)
    ensures var h := WithSystem(History(show, ms), prompt);
            && Alternates(h)
            && UsesIn(h) == Calls(ms)
            && UserItems(h) == WithSystem(Turns(show, ms), prompt)
  {
    hide Alternates, UsesIn, UserItems, History, Calls, Turns, WithSystem;
    HistoryIsFaithful(show, ms);
    SystemKeeps(History(show, ms), prompt);
  }

  // ---------------------------------------------------------------- the whole request

  predicate HasResult(m: Message) {
    m.role.Tool? && m.toolResult.Some?
  }

  function ResultOf(show: Value -> string, m: Message): seq<ResultItem> {
    if HasResult(m) then [ToResultItem(show, m.toolResult.value)] else []
  }

  /** The results of the messages after the last one of the assistant. */
  function TrailingResults(show: Value -> string, ms: seq<Message>): seq<ResultItem> {
    if ms == [] || ms[|ms| - 1].role.Assistant? then []
    else TrailingResults(show, ms[..|ms| - 1]) + ResultOf(show, ms[|ms| - 1])
  }

  function RequestOf(show: Value -> string, ms: seq<Message>, prompt: string): Request
    requires ms != []
  {
    var n := |ms| - 1;
    var results := if ms[n].role.Tool? then TrailingResults(show, ms) else [];
    Request(
      WithSystem(History(show, ms[..n]), prompt),
      if results != [] then PROVIDED
      else if ms[n].role.Tool? || FullText(ms[n]) == "" then "Continue"
      else FullText(ms[n]),
      results)
  }

  method BuildRequest(show: Value -> string, messages: seq<Message>, systemPrompt: Option<string>)
    returns (r: Option<Request>)
    ensures r == if messages == [] then None
                 else
                   var prompt := GeminiParser.Trim(if systemPrompt.Some? then systemPrompt.value else "");
                   Some(RequestOf(show, messages, prompt))
  {
    hide History, WithSystem, FullText, TrailingResults;
    if messages == [] { return None; }
    var history := BuildHistory(show, messages);
    var prompt := GeminiParser.Trim(if systemPrompt.Some? then systemPrompt.value else "");
    history := InjectSystemPrompt(history, prompt);

    var current := messages[|messages| - 1];
    var content := FullText(current);
    var results: seq<ResultItem> := [];
    if current.role.Tool? {
      results := CollectTrailing(show, messages);
      content := if results == [] then "Continue" else PROVIDED;
    }
    if content == "" { content := "Continue"; }
    return Some(Request(history, content, results));
  }

  method CollectTrailing(show: Value -> string, messages: seq<Message>) returns (results: seq<ResultItem>)
    ensures results == TrailingResults(show, messages)
  {
    results := [];
    assert messages[..|messages|] == messages;
    assert TrailingResults(show, messages) + [] == TrailingResults(show, messages);
    for i := |messages| downto 0
      invariant TrailingResults(show, messages) == TrailingResults(show, messages[..i]) + results
    {
      var m := messages[i];
      if m.role.Assistant? {
        assert [] + results == results;
        return;
      }
      assert messages[..i + 1][..i] == messages[..i];
      Associative(TrailingResults(show, messages[..i]), ResultOf(show, m), results);
      if HasResult(m) { results := [ToResultItem(show, m.toolResult.value)] + results; }
    }
    assert [] + results == results;
  }

  // ---------------------------------------------------------------- each result once

  function Results(items: seq<Item>): seq<ResultItem> {
    if items == [] then []
    else
      var last := items[|items| - 1];
      Results(items[..|items| - 1]) + if last.UserItem? then last.results else []
  }

  function AllResults(show: Value -> string, ms: seq<Message>): seq<ResultItem> {
    if ms == [] then [] else AllResults(show, ms[..|ms| - 1]) + ResultOf(show, ms[|ms| - 1])
  }

  /** Where the messages after the last one of the assistant start. */
  function AnswersStart(ms: seq<Message>): (n: nat)
    ensures n <= |ms|
    ensures forall i | n <= i < |ms| :: !ms[i].role.Assistant?
  {
    if ms == [] || ms[|ms| - 1].role.Assistant? then |ms| else AnswersStart(ms[..|ms| - 1])
  }

  lemma {:induction false} OneResult(show: Value -> string, m: Message)
    ensures ResultOf(show, m) == [] <==> !HasResult(m)
  {}

  lemma {:induction false} NothingTrails(show: Value -> string, ms: seq<Message>)
    ensures TrailingResults(show, ms) == [] <==> forall i | AnswersStart(ms) <= i < |ms| :: !HasResult(ms[i])
  {
    hide ResultOf, HasResult;
    if ms != [] && !ms[|ms| - 1].role.Assistant? {
      var init, last := ms[..|ms| - 1], ms[|ms| - 1];
      NothingTrails(show, init);
      assert ResultOf(show, last) == [] <==> !HasResult(last) by { OneResult(show, last); }
      assert forall i | 0 <= i < |init| :: init[i] == ms[i];
    }
  }

  predicate AllValid(ms: seq<Message>) {
    forall i | 0 <= i < |ms| :: MessageValid(ms[i])
  }

  /** A history repeats the results of its messages, with a blank for a tool message that has none. */
  lemma {:induction false} TurnResults(show: Value -> string, ms: seq<Message>)
    ensures var kept, all := Results(Turns(show, ms)), AllResults(show, ms);
            |kept| >= |all| && (|kept| == |all| <==> AllValid(ms)) && (AllValid(ms) ==> kept == all)
  {
    hide AllValid;
    if ms == [] {
      assert AllValid(ms) by { NoneInvalid(); }
    } else {
      var n := |ms| - 1;
      TurnResults(show, ms[..n]);
      ValidInit(ms);
      var turns := Turns(show, ms[..n]);
      var turn := TurnOf(show, ms[n]);
      assert (turns + [turn])[..|turns|] == turns && (turns + [turn])[|turns|] == turn;
      assert turns + [] == turns;
    }
  }

  lemma {:induction false} NoneInvalid()
    ensures AllValid([])
  {}

  lemma {:induction false} ValidInit(ms: seq<Message>)
    requires ms != []
    ensures AllValid(ms) <==> AllValid(ms[..|ms| - 1]) && MessageValid(ms[|ms| - 1])
  {
    var n := |ms| - 1;
    assert forall i | 0 <= i < n :: ms[..n][i] == ms[i];
  }

  lemma {:induction false} PromptCarriesNoResult(turns: seq<Item>, x: Item)
    requires turns != [] && turns[0].UserItem? && x.UserItem? && x.results == turns[0].results
    ensures Results(turns[0 := x]) == Results(turns)
  {
    var n := |turns| - 1;
    if n > 0 {
      PromptCarriesNoResult(turns[..n], x);
      assert turns[0 := x][..n] == turns[..n][0 := x];
    }
  }

  lemma {:induction false} PromptAddsNoResult(turns: seq<Item>, prompt: string)
    requires forall turn <- turns :: turn.UserItem?
    ensures Results(WithSystem(turns, prompt)) == Results(turns)
  {
    if turns != [] {
      PromptCarriesNoResult(turns, UserItem(Under(prompt, turns[0].content), turns[0].results));
    } else {
      assert [UserItem(prompt, [])][..0] == [];
    }
  }

  /**
   A request carries every tool result once, in order, exactly when every tool message before the
   last has one and, if the last message is a tool's, no result lies between it and the assistant's
   last message: those are sent both in the history and with the current message.
   */
  lemma {:induction false} EachResultOnceIff(show: Value -> string, ms: seq<Message>, prompt: string)
    requires ms != []
    ensures var req, n := RequestOf(show, ms, prompt), |ms| - 1;
            Results(UserItems(req.history)) + req.results == AllResults(show, ms) <==>
            && AllValid(ms[..n])
            && (ms[n].role.Tool? ==> forall i | AnswersStart(ms) <= i < n :: !HasResult(ms[i]))
  {
    hide Results, UserItems, WithSystem, History, Turns, FullText;
    var n := |ms| - 1;
    var init := ms[..n];
    HistoryWithPromptIsFaithful(show, init, prompt);
    PromptAddsNoResult(Turns(show, init), prompt);
    TurnResults(show, init);
    NothingTrails(show, init);
    var kept := Results(Turns(show, init));
    assert forall i | 0 <= i < n :: init[i] == ms[i];
    if ms[n].role.Tool? {
      Associative(kept, TrailingResults(show, init), ResultOf(show, ms[n]));
      assert kept + [] == kept;
    } else {
      assert AllResults(show, init) + [] == AllResults(show, init);
    }
  }

  /** Two calls and their two results: the first result is sent twice. */
  lemma {:induction false} FirstResultIsSentTwice(
    show: Value -> string, calls: seq<ToolCall>, one: ToolResult, two: ToolResult, prompt: string)
    ensures var ms := [AssistantWithTools(None, calls), ToolMessage(one), ToolMessage(two)];
            var req := RequestOf(show, ms, prompt);
            var first, second := ToResultItem(show, one), ToResultItem(show, two);
            && Results(UserItems(req.history)) + req.results == [first, first, second]
            && AllResults(show, ms) == [first, second]
  {
    hide Alternates, UsesIn, Calls, UserItems, WithSystem, History, FullText;
    hide Turns, TrailingResults, AllResults, Results;
    var turn, answer, last := AssistantWithTools(None, calls), ToolMessage(one), ToolMessage(two);
    var first, second := ToResultItem(show, one), ToResultItem(show, two);
    NoMessages(show);
    OneMore(show, [], turn);
    OneMore(show, [turn], answer);
    OneMore(show, [turn, answer], last);
    assert [] + [turn] == [turn] && [turn] + [answer] == [turn, answer];
    assert [turn, answer] + [last] == [turn, answer, last] && [turn, answer, last][..2] == [turn, answer];
    HistoryWithPromptIsFaithful(show, [turn, answer], prompt);
    PromptAddsNoResult(Turns(show, [turn, answer]), prompt);
    OneMoreItem([], TurnOf(show, answer));
    assert [] + [TurnOf(show, answer)] == [TurnOf(show, answer)];
    assert [first] + [first, second] == [first, first, second];
  }

  lemma {:induction false} NoMessages(show: Value -> string)
    ensures Turns(show, []) == [] && TrailingResults(show, []) == [] && AllResults(show, []) == [] && Results([]) == []
  {}

  lemma {:induction false} OneMore(show: Value -> string, ms: seq<Message>, m: Message)
    ensures Turns(show, ms + [m]) == Turns(show, ms) + if m.role.Assistant? then [] else [TurnOf(show, m)]
    ensures TrailingResults(show, ms + [m]) ==
            if m.role.Assistant? then [] else TrailingResults(show, ms) + ResultOf(show, m)
    ensures AllResults(show, ms + [m]) == AllResults(show, ms) + ResultOf(show, m)
  {
    assert (ms + [m])[..|ms|] == ms;
  }

  lemma {:induction false} OneMoreItem(items: seq<Item>, x: Item)
    ensures Results(items + [x]) == Results(items) + if x.UserItem? then x.results else []
  {
    assert (items + [x])[..|items|] == items;
  }
}
