/**
 Kiro's brace-counting event-stream parser. Buffers are sequences of characters;
 every index the parser computes is the position of an ASCII character.
 */
module KiroParser {
  import opened JsonValue
  import opened Prelude

  // ---------------------------------------------------------------- finding an object

  function Markers(): seq<string> {
    [
      "{\"content\":",
      "{\"name\":",
      "{\"followupPrompt\":",
      "{\"input\":",
      "{\"stop\":",
      "{\"contextUsagePercentage\":"
    ]
  }

  predicate At(s: string, i: nat, m: string) {
    i + |m| <= |s| && s[i..i + |m|] == m
  }

  predicate MarkerAt(s: string, i: nat) {
    exists m <- Markers() :: At(s, i, m)
  }

  /** `str::find`: the first occurrence of `m`. */
  function Find(s: string, m: string, from: nat): (r: Option<nat>)
    requires from <= |s|
    ensures r.Some? ==> from <= r.value && At(s, r.value, m) && forall q | from <= q < r.value :: !At(s, q, m)
    ensures r.None? ==> forall q | from <= q :: !At(s, q, m)
    decreases |s| - from
  {
    if At(s, from, m) then Some(from)
    else if from == |s| then None
    else Find(s, m, from + 1)
  }

  function Earliest(s: string, ms: seq<string>): Option<nat> {
    if ms == [] then None
    else
      match (Find(s, ms[0], 0), Earliest(s, ms[1..]))
      case (Some(p), Some(q)) => Some(if p <= q then p else q)
      case (Some(p), None) => Some(p)
      case (None, rest) => rest
  }

  lemma {:induction false} EarliestMeets(s: string, ms: seq<string>)
    ensures match Earliest(s, ms)
            case None => forall m <- ms, q | 0 <= q :: !At(s, q, m)
            case Some(p) => (exists m <- ms :: At(s, p, m)) && forall m <- ms, q | 0 <= q < p :: !At(s, q, m)
  {
    if ms != [] {
      var rest := ms[1..];
      EarliestMeets(s, rest);
      assert ms == [ms[0]] + rest;
      if Earliest(s, rest).Some? {
        var m :| m in rest && At(s, Earliest(s, rest).value, m);
        assert m in ms;
      }
      assert ms[0] in ms;
    }
  }

  function NextObjectStart(buf: string, from: nat): (r: Option<nat>)
    requires from <= |buf|
    ensures r.Some? ==> from <= r.value < |buf| && MarkerAt(buf[from..], r.value - from)
    ensures r.Some? ==> forall q | 0 <= q < r.value - from :: !MarkerAt(buf[from..], q)
    ensures r.None? ==> forall q | 0 <= q :: !MarkerAt(buf[from..], q)
  {
    hide Markers, Earliest, Find, MarkerAt;
    FirstMarker(buf[from..]);
    match Earliest(buf[from..], Markers())
    case None => None
    case Some(p) => Some(p + from)
  }

  lemma {:induction false} FirstMarker(s: string)
    ensures match Earliest(s, Markers())
            case None => forall q | 0 <= q :: !MarkerAt(s, q)
            case Some(p) => p < |s| && MarkerAt(s, p) && forall q | 0 <= q < p :: !MarkerAt(s, q)
  {
    hide Markers, Earliest;
    EarliestMeets(s, Markers());
    if Earliest(s, Markers()).Some? { EarliestInside(s, Earliest(s, Markers()).value); }
  }

  /** Every marker opens with a brace and contains no other. */
  lemma {:induction false} MarkersOpen()
    ensures forall m <- Markers() :: |m| > 0 && m[0] == '{' && forall j | 0 < j < |m| :: m[j] != '{'
  {}

  // ---------------------------------------------------------------- finding its end

  datatype Scan = Scan(brace: int, inString: bool, escape: bool)
  datatype Step = Closed | Open(next: Scan)

  const START := Scan(0, false, false)

  function Advance(st: Scan, ch: char): Step {
    if st.escape then Open(st.(escape := false))
    else if ch == '\\' then Open(st.(escape := true))
    else if ch == '"' then Open(st.(inString := !st.inString))
    else if ch == '{' && !st.inString then Open(st.(brace := st.brace + 1))
    else if ch == '}' && !st.inString then
      if st.brace - 1 == 0 then Closed else Open(st.(brace := st.brace - 1))
    else Open(st)
  }

  /** The offset of the brace that closes the object, scanning `s` from state `st`. */
  function ScanFrom(s: string, st: Scan): (r: Option<nat>)
    ensures r.Some? ==> r.value < |s|
  {
    if s == "" then None
    else
      match Advance(st, s[0])
      case Closed => Some(0)
      case Open(next) =>
        match ScanFrom(s[1..], next)
        case None => None
        case Some(k) => Some(k + 1)
  }

  method ObjectEnd(buf: string, start: nat) returns (r: Option<nat>)
    requires start <= |buf|
    ensures r == match ScanFrom(buf[start..], START) case None => None case Some(k) => Some(start + k)
  {
    hide ScanFrom;
    var brace, inString, escape := 0, false, false;
    for i := start to |buf|
      invariant ScanFrom(buf[start..], START) ==
                match ScanFrom(buf[i..], Scan(brace, inString, escape))
                case None => None
                case Some(k) => Some(i - start + k)
    {
      var ch := buf[i];
      ScanStep(buf, i, Scan(brace, inString, escape));
      if escape {
        escape := false;
        continue;
      }
      if ch == '\\' {
        escape := true;
      } else if ch == '"' {
        inString := !inString;
      } else if ch == '{' && !inString {
        brace := brace + 1;
      } else if ch == '}' && !inString {
        brace := brace - 1;
        if brace == 0 { return Some(i); }
      }
    }
    ScanNothing(buf, Scan(brace, inString, escape));
    return None;
  }

  lemma {:induction false} ScanStep(s: string, i: nat, st: Scan)
    requires i < |s|
    ensures ScanFrom(s[i..], st) ==
            match Advance(st, s[i])
            case Closed => Some(0)
            case Open(next) => match ScanFrom(s[i + 1..], next) case None => None case Some(k) => Some(k + 1)
  {
    assert s[i..][1..] == s[i + 1..];
  }

  lemma {:induction false} ScanNothing(s: string, st: Scan)
    ensures ScanFrom(s[|s|..], st) == None
  {}

  // ---------------------------------------------------------------- events

  datatype Event =
    | Content(text: string)
    | ToolUse(name: string, toolUseId: string, input: string, stop: bool)
    | ToolUseInput(input: string)
    | ToolUseStop(stop: bool)
    | ContextUsage(percentage: real)

  /** The JSON library: parsing a text, and printing a value back. */
  datatype JsonLib = JsonLib(parse: string -> Option<Value>, print_: Value -> string)

  predicate Has(v: Value, key: string) {
    Get(v, key).Some? && !Get(v, key).value.Null?
  }

  function TextOf(v: Option<Value>, lib: JsonLib): string {
    match v
    case None => ""
    case Some(Str(s)) => s
    case Some(other) => lib.print_(other)
  }

  function StopOf(v: Value): bool {
    match Get(v, "stop") case Some(Bool(b)) => b case _ => false
  }

  predicate IsStr(v: Option<Value>) {
    v.Some? && v.value.Str?
  }

  function Classify(v: Value, lib: JsonLib): Option<Event> {
    if Has(v, "content") && !Has(v, "followupPrompt") then
      Some(Content(TextOf(Get(v, "content"), lib)))
    else if IsStr(Get(v, "name")) && IsStr(Get(v, "toolUseId")) then
      Some(ToolUse(Get(v, "name").value.s, Get(v, "toolUseId").value.s, TextOf(Get(v, "input"), lib), StopOf(v)))
    else if Has(v, "input") && !IsStr(Get(v, "name")) then
      Some(ToolUseInput(TextOf(Get(v, "input"), lib)))
    else if Has(v, "stop") && !Has(v, "contextUsagePercentage") then
      Some(ToolUseStop(StopOf(v)))
    else
      match Get(v, "contextUsagePercentage")
      case Some(Number(pct)) => Some(ContextUsage(pct))
      case _ => None
  }

  /** The object that reports an event. */
  function Report(ev: Event): Value {
    match ev
    case Content(text) => Obj([Member("content", Str(text))])
    case ToolUse(name, id, input, stop) =>
      Obj([Member("name", Str(name)), Member("toolUseId", Str(id)),
           Member("input", Str(input)), Member("stop", Bool(stop))])
    case ToolUseInput(input) => Obj([Member("input", Str(input))])
    case ToolUseStop(stop) => Obj([Member("stop", Bool(stop))])
    case ContextUsage(percentage) => Obj([Member("contextUsagePercentage", Number(percentage))])
  }

  lemma {:induction false} LookupFirst(m: Member, rest: seq<Member>, key: string)
    ensures Lookup([m] + rest, key) == if m.key == key then Some(m.value) else Lookup(rest, key)
  {
    assert ([m] + rest)[1..] == rest;
  }

  lemma {:induction false} OneMember(m: Member, key: string)
    ensures Get(Obj([m]), key) == if m.key == key then Some(m.value) else None
  {
    LookupFirst(m, [], key);
    assert [m] + [] == [m];
  }

  /** Every kind of event is recognised from the object that reports it, with all it carries. */
  lemma {:induction false} ClassifyInvertsReport(ev: Event, lib: JsonLib)
    ensures Classify(Report(ev), lib) == Some(ev)
  {
    hide Get;
    assert "name"[0] != "stop"[0];
    match ev {
      case ToolUse(name, id, input, stop) => ToolUseKeys(name, id, input, stop);
      case _ =>
        var m := Report(ev).members[0];
        OneMember(m, "content");
        OneMember(m, "followupPrompt");
        OneMember(m, "name");
        OneMember(m, "toolUseId");
        OneMember(m, "input");
        OneMember(m, "stop");
        OneMember(m, "contextUsagePercentage");
    }
  }

  lemma {:induction false} ToolUseKeys(name: string, id: string, input: string, stop: bool)
    ensures var v := Report(ToolUse(name, id, input, stop));
            && Get(v, "content") == None
            && Get(v, "name") == Some(Str(name)) && Get(v, "toolUseId") == Some(Str(id))
            && Get(v, "input") == Some(Str(input)) && Get(v, "stop") == Some(Bool(stop))
  {
    assert "name"[0] != "stop"[0];
    var a, b := Member("name", Str(name)), Member("toolUseId", Str(id));
    var c, d := Member("input", Str(input)), Member("stop", Bool(stop));
    assert [a, b, c, d] == [a] + ([b] + ([c] + [d]));
    forall key ensures Lookup([a, b, c, d], key) ==
                       if key == a.key then Some(a.value) else if key == b.key then Some(b.value)
                       else if key == c.key then Some(c.value) else if key == d.key then Some(d.value) else None
    {
      LookupFirst(a, [b] + ([c] + [d]), key);
      LookupFirst(b, [c] + [d], key);
      LookupFirst(c, [d], key);
      OneMember(d, key);
    }
  }

  /** A content object with a follow-up prompt is no content event. */
  lemma {:induction false} FollowupIsNotContent(v: Value, lib: JsonLib)
    requires Has(v, "followupPrompt")
    ensures Classify(v, lib).Some? ==> !Classify(v, lib).value.Content?
  {}

  /** A follow-up prompt beside the content silences it, unless it is null. */
  lemma {:induction false} FollowupSilencesContent(text: string, prompt: Value, lib: JsonLib)
    ensures Classify(Obj([Member("content", Str(text)), Member("followupPrompt", prompt)]), lib) ==
            if prompt.Null? then Some(Content(text)) else None
  {
    hide Get;
    var content, followup := Member("content", Str(text)), Member("followupPrompt", prompt);
    var v := Obj([content, followup]);
    forall key
      ensures Get(v, key) ==
              if key == "content" then Some(Str(text)) else if key == "followupPrompt" then Some(prompt) else None
    {
      LookupFirst(content, [followup], key);
      OneMember(followup, key);
      assert [content] + [followup] == [content, followup];
      GetIsLookup(v, key);
      GetIsLookup(Obj([followup]), key);
    }
    if !prompt.Null? { FollowupIsNotContent(v, lib); }
  }

  lemma {:induction false} GetIsLookup(v: Value, key: string)
    requires v.Obj?
    ensures Get(v, key) == Lookup(v.members, key)
  {}

  /** The events one object text contributes: one, or none when it does not parse or classify. */
  function Emit(text: string, lib: JsonLib): seq<Event> {
    match lib.parse(text)
    case None => []
    case Some(v) =>
      match Classify(v, lib) case None => [] case Some(ev) => [ev]
  }

  datatype Parsed = Parsed(events: seq<Event>, rest: string)

  /** The events of a buffer, and the text after its last complete object. */
  function Parse(s: string, lib: JsonLib): Parsed
    decreases |s|
  {
    match Earliest(s, Markers())
    case None => Parsed([], s)
    case Some(i) =>
      EarliestInside(s, i);
      match ScanFrom(s[i..], START)
      case None => Parsed([], s)
      case Some(k) =>
        var tail := Parse(s[i + k + 1..], lib);
        Parsed(Emit(s[i..i + k + 1], lib) + tail.events, tail.rest)
  }

  lemma {:induction false} EarliestInside(s: string, i: nat)
    requires Earliest(s, Markers()) == Some(i)
    ensures i < |s| && s[i] == '{'
  {
    hide Markers, Earliest;
    MarkersOpen();
    EarliestMeets(s, Markers());
    var m :| m in Markers() && At(s, i, m);
    assert s[i..i + |m|][0] == s[i];
  }

  lemma {:induction false} ParseStops(s: string, lib: JsonLib)
    requires match Earliest(s, Markers()) case None => true case Some(i) => i <= |s| && ScanFrom(s[i..], START).None?
    ensures Parse(s, lib) == Parsed([], s)
  {
    hide Markers, ScanFrom, Earliest, Emit;
  }

  lemma {:induction false} ParseNothing(lib: JsonLib)
    ensures Parse("", lib) == Parsed([], "")
  {
    hide Markers;
    if Earliest("", Markers()).Some? { EarliestInside("", Earliest("", Markers()).value); }
  }

  lemma {:induction false} ParseStep(s: string, i: nat, k: nat, lib: JsonLib)
    requires Earliest(s, Markers()) == Some(i) && i <= |s| && ScanFrom(s[i..], START) == Some(k)
    ensures i + k + 1 <= |s|
    ensures var tail := Parse(s[i + k + 1..], lib);
            Parse(s, lib) == Parsed(Emit(s[i..i + k + 1], lib) + tail.events, tail.rest)
  {
    hide Markers, ScanFrom, Earliest, Emit;
  }

  method ParseStreamBuffer(buffer: string, lib: JsonLib) returns (events: seq<Event>, remaining: string)
    ensures Parsed(events, remaining) == Parse(buffer, lib)
  {
    hide Markers, Classify, Parse, Earliest, ScanFrom;
    events := [];
    var searchStart, lastConsumed := 0, 0;
    assert buffer[0..] == buffer;
    ParseNothing(lib);
    while true
      invariant searchStart == lastConsumed <= |buffer|
      invariant var tail := Parse(buffer[searchStart..], lib);
                Parse(buffer, lib) == Parsed(events + tail.events, tail.rest)
      invariant events + [] == events
      decreases |buffer| - searchStart
    {
      ghost var s := buffer[searchStart..];
      ghost var at, before := searchStart, events;
      var start := NextObjectStart(buffer, searchStart);
      if start.None? { ParseStops(s, lib); break; }
      var end := ObjectEnd(buffer, start.value);
      assert s[start.value - at..] == buffer[start.value..];
      if end.None? { ParseStops(s, lib); break; }
      ParseStep(s, start.value - at, end.value - start.value, lib);
      var text := buffer[start.value..end.value + 1];
      assert s[start.value - at..end.value + 1 - at] == text;
      assert s[end.value + 1 - at..] == buffer[end.value + 1..];
      var parsed := lib.parse(text);
      if parsed.Some? {
        var ev := Classify(parsed.value, lib);
        if ev.Some? { events := events + [ev.value]; }
      }
      assert events == before + Emit(text, lib);
      Associative(before, Emit(text, lib), Parse(buffer[end.value + 1..], lib).events);
      searchStart := end.value + 1;
      lastConsumed := searchStart;
      if searchStart >= |buffer| { break; }
    }
    remaining := buffer[lastConsumed..];
  }

  // ---------------------------------------------------------------- chunking

  lemma {:induction false} ScanStable(a: string, b: string, st: Scan)
    requires ScanFrom(a, st).Some?
    ensures ScanFrom(a + b, st) == ScanFrom(a, st)
  {
    match Advance(st, a[0]) {
      case Closed =>
      case Open(next) =>
        ScanStable(a[1..], b, next);
        assert (a + b)[1..] == a[1..] + b;
    }
  }

  lemma {:induction false} EarliestIs(s: string, i: nat)
    requires i < |s| && s[i] == '{' && MarkerAt(s, i)
    requires forall q | 0 <= q < i :: !MarkerAt(s, q)
    ensures Earliest(s, Markers()) == Some(i)
  {
    hide Markers, Earliest;
    EarliestMeets(s, Markers());
    var m :| m in Markers() && At(s, i, m);
    var r := Earliest(s, Markers());
    assert r.Some? && r.value <= i;
    assert MarkerAt(s, r.value);
  }

  /** Text that arrives later neither moves the first marker nor puts another before it. */
  lemma {:induction false} EarliestStable(a: string, b: string, i: nat)
    requires Earliest(a, Markers()) == Some(i)
    ensures i < |a| && Earliest(a + b, Markers()) == Some(i)
  {
    hide Markers, Earliest;
    EarliestInside(a, i);
    EarliestMeets(a, Markers());
    MarkersOpen();
    var s := a + b;
    var m :| m in Markers() && At(a, i, m);
    assert s[i..i + |m|] == a[i..i + |m|];
    assert At(s, i, m);
    forall q, m' | 0 <= q < i && m' in Markers()
      ensures !At(s, q, m')
    {
      if q + |m'| <= |a| {
        assert s[q..q + |m'|] == a[q..q + |m'|];
        assert At(s, q, m') == At(a, q, m');
      } else if q + |m'| <= |s| {
        assert s[q..q + |m'|][i - q] == '{' && m'[i - q] != '{';
      }
    }
    EarliestIs(s, i);
  }

  /** Feeding a buffer in two pieces gives the events, and the tail, of feeding it whole. */
  lemma {:induction false} ParseTwoPieces(a: string, b: string, lib: JsonLib)
    ensures var first := Parse(a, lib);
            var second := Parse(first.rest + b, lib);
            Parse(a + b, lib) == Parsed(first.events + second.events, second.rest)
    decreases |a|
  {
    hide Markers, Earliest, ScanFrom, Emit, Parse;
    var e := Earliest(a, Markers());
    if e.Some? && e.value <= |a| && ScanFrom(a[e.value..], START).Some? {
      var i := e.value;
      var k := ScanFrom(a[i..], START).value;
      var next := i + k + 1;
      ParseStep(a, i, k, lib);
      EarliestStable(a, b, i);
      ScanStable(a[i..], b, START);
      assert (a + b)[i..] == a[i..] + b;
      ParseStep(a + b, i, k, lib);
      assert (a + b)[i..next] == a[i..next] && (a + b)[next..] == a[next..] + b;
      ParseTwoPieces(a[next..], b, lib);
      var tail := Parse(a[next..], lib);
      Associative(Emit(a[i..next], lib), tail.events, Parse(tail.rest + b, lib).events);
    } else {
      if e.Some? { EarliestInside(a, e.value); }
      ParseStops(a, lib);
      assert [] + Parse(a + b, lib).events == Parse(a + b, lib).events;
    }
  }

  /** A stream: each chunk is appended to the tail the previous call left. */
  function Feed(chunks: seq<string>, tail: string, lib: JsonLib): Parsed {
    if chunks == [] then Parsed([], tail)
    else
      var now := Parse(tail + chunks[0], lib);
      var later := Feed(chunks[1..], now.rest, lib);
      Parsed(now.events + later.events, later.rest)
  }

  lemma {:induction false} ParseTailAgain(s: string, lib: JsonLib)
    ensures Parse(Parse(s, lib).rest, lib) == Parsed([], Parse(s, lib).rest)
    decreases |s|
  {
    hide Markers, Earliest, ScanFrom, Emit, Parse;
    var e := Earliest(s, Markers());
    if e.Some? && e.value <= |s| && ScanFrom(s[e.value..], START).Some? {
      ParseStep(s, e.value, ScanFrom(s[e.value..], START).value, lib);
      ParseTailAgain(s[e.value + ScanFrom(s[e.value..], START).value + 1..], lib);
    } else {
      if e.Some? { EarliestInside(s, e.value); }
      ParseStops(s, lib);
    }
  }

  /** However a text is cut into chunks, streaming it gives what one call on the whole gives. */
  lemma {:induction false} FeedIsParse(chunks: seq<string>, tail: string, lib: JsonLib)
    requires Parse(tail, lib) == Parsed([], tail)
    ensures Feed(chunks, tail, lib) == Parse(tail + Concat(chunks), lib)
    decreases |chunks|
  {
    hide Parse;
    if chunks == [] {
      assert tail + Concat(chunks) == tail;
    } else {
      var now := Parse(tail + chunks[0], lib);
      ParseTailAgain(tail + chunks[0], lib);
      FeedIsParse(chunks[1..], now.rest, lib);
      ParseTwoPieces(tail + chunks[0], Concat(chunks[1..]), lib);
      Associative(tail, chunks[0], Concat(chunks[1..]));
    }
  }
}
