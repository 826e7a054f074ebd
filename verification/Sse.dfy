/**
 Line splitting and Server-Sent Events over a chunked byte stream. A stream delivers
 its chunks and then either ends or fails; text is kept as its UTF-8 bytes.
 */
module Sse {
  import opened Prelude

  type Bytes = seq<Byte>

  const LF: Byte := 10
  const CR: Byte := 13
  const SPACE: Byte := 32
  const COLON: Byte := 58

  /** What a consumer of a stream sees: the items yielded, and whether it ended in an error. */
  datatype Yield<T> = Yield(items: seq<T>, failed: bool)

  function Memchr(needle: Byte, haystack: Bytes): (r: Option<nat>)
    ensures r.Some? ==> r.value < |haystack| && haystack[r.value] == needle && needle !in haystack[..r.value]
    ensures r.None? ==> needle !in haystack
  {
    if haystack == [] then None
    else if haystack[0] == needle then Some(0)
    else
      match Memchr(needle, haystack[1..])
      case None => None
      case Some(k) =>
        assert haystack[..k + 1] == [haystack[0]] + haystack[1..][..k];
        Some(k + 1)
  }

  // ---------------------------------------------------------------- lines

  function StripCr(line: Bytes): Bytes {
    if line != [] && line[|line| - 1] == CR then line[..|line| - 1] else line
  }

  /** The newline-terminated lines of `s`, without their terminators. */
  function Terminated(s: Bytes): seq<Bytes>
    decreases |s|
  {
    match Memchr(LF, s)
    case None => []
    case Some(pos) => [StripCr(s[..pos])] + Terminated(s[pos + 1..])
  }

  /** What follows the last newline of `s`. */
  function Partial(s: Bytes): (r: Bytes)
    ensures LF !in r
    decreases |s|
  {
    match Memchr(LF, s)
    case None => s
    case Some(pos) => Partial(s[pos + 1..])
  }

  /** The lines of a whole stream: terminated ones, then a non-empty rest unless the stream failed. */
  function SplitLines(s: Bytes, failed: bool): Yield<Bytes> {
    Yield(Terminated(s) + (if failed || Partial(s) == [] then [] else [Partial(s)]), failed)
  }

  lemma {:induction false} MemchrIs(needle: Byte, before: Bytes, after: Bytes)
    requires needle !in before
    ensures Memchr(needle, before + [needle] + after) == Some(|before|)
  {
    var s := before + [needle] + after;
    if before != [] {
      MemchrIs(needle, before[1..], after);
      assert s[1..] == before[1..] + [needle] + after;
    }
  }

  lemma {:induction false} FirstNewline(line: Bytes, rest: Bytes)
    requires LF !in line
    ensures var s := line + [LF] + rest;
            Terminated(s) == [StripCr(line)] + Terminated(rest) && Partial(s) == Partial(rest)
  {
    hide Memchr, StripCr;
    var s := line + [LF] + rest;
    MemchrIs(LF, line, rest);
    assert s[..|line|] == line && s[|line| + 1..] == rest;
  }

  lemma {:induction false} NoNewline(s: Bytes)
    requires Memchr(LF, s).None?
    ensures Terminated(s) == [] && Partial(s) == s
  {}

  /** Bytes that arrive later only complete the unterminated rest of those before. */
  lemma {:induction false} LinesAppend(a: Bytes, b: Bytes)
    ensures Terminated(a + b) == Terminated(a) + Terminated(Partial(a) + b)
    ensures Partial(a + b) == Partial(Partial(a) + b)
    decreases |a|
  {
    hide Memchr, Terminated, Partial, StripCr;
    match Memchr(LF, a) {
      case None => NoNewline(a);
      case Some(pos) =>
        var line, rest := a[..pos], a[pos + 1..];
        assert a == line + [LF] + rest && a + b == line + [LF] + (rest + b);
        FirstNewline(line, rest);
        FirstNewline(line, rest + b);
        LinesAppend(rest, b);
        Associative([StripCr(line)], Terminated(rest), Terminated(Partial(rest) + b));
    }
  }

  method Lines(chunks: seq<Bytes>, failed: bool) returns (r: Yield<Bytes>)
    ensures r == SplitLines(Concat(chunks), failed)
  {
    hide Memchr, StripCr;
    var buf: Bytes := [];
    var out: seq<Bytes> := [];
    ghost var fed: Bytes := [];
    for i := 0 to |chunks|
      invariant fed + Concat(chunks[i..]) == Concat(chunks)
      invariant out == Terminated(fed) && buf == Partial(fed)
    {
      LinesAppend(fed, chunks[i]);
      Associative(fed, chunks[i], Concat(chunks[i + 1..]));
      assert chunks[i..][1..] == chunks[i + 1..];
      fed := fed + chunks[i];
      buf := buf + chunks[i];
      while true
        invariant Terminated(fed) == out + Terminated(buf)
        invariant Partial(fed) == Partial(buf)
        invariant out + [] == out
        decreases |buf|
      {
        var pos := Memchr(LF, buf);
        if pos.None? { break; }
        var line := buf[..pos.value];
        Associative(out, [StripCr(line)], Terminated(buf[pos.value + 1..]));
        buf := buf[pos.value + 1..];
        line := StripCr(line);
        out := out + [line];
      }
    }
    assert fed + Concat([]) == fed;
    if failed { return Yield(out, true); }
    if buf != [] { out := out + [buf]; }
    return Yield(out, false);
  }

  // ---------------------------------------------------------------- events

  datatype SseEvent = SseEvent(event: Option<Bytes>, data: Bytes)

  const NO_EVENT := SseEvent(None, [])
  const DATA: Bytes := [100, 97, 116, 97]
  const EVENT: Bytes := [101, 118, 101, 110, 116]

  /** `field: value`, with one optional space dropped from the value. */
  function SplitField(line: Bytes): (Bytes, Bytes) {
    match Memchr(COLON, line)
    case None => (line, [])
    case Some(idx) =>
      var value := line[idx + 1..];
      (line[..idx], if value != [] && value[0] == SPACE then value[1..] else value)
  }

  datatype State = State(cur: SseEvent, haveData: bool)

  const FRESH := State(NO_EVENT, false)

  /** The effect of one line on the event being collected, and the event it dispatches, if any. */
  function OnLine(st: State, line: Bytes): (State, seq<SseEvent>) {
    if line == [] then
      if st.haveData then (FRESH, [st.cur]) else (st, [])
    else if line[0] == COLON then (st, [])
    else
      var (field, value) := SplitField(line);
      if field == DATA then
        var data := (if st.haveData then st.cur.data + [LF] else st.cur.data) + value;
        (State(st.cur.(data := data), true), [])
      else if field == EVENT then (st.(cur := st.cur.(event := Some(value))), [])
      else (st, [])
  }

  function Collect(st: State, lines: seq<Bytes>, failed: bool): seq<SseEvent>
    decreases |lines|
  {
    if lines == [] then (if st.haveData && !failed then [st.cur] else [])
    else OnLine(st, lines[0]).1 + Collect(OnLine(st, lines[0]).0, lines[1..], failed)
  }

  function EventsOf(lines: Yield<Bytes>): Yield<SseEvent> {
    Yield(Collect(FRESH, lines.items, lines.failed), lines.failed)
  }

  method Events(chunks: seq<Bytes>, failed: bool) returns (r: Yield<SseEvent>)
    ensures r == EventsOf(SplitLines(Concat(chunks), failed))
  {
    var lines := Lines(chunks, failed);
    var cur, haveData := NO_EVENT, false;
    var out: seq<SseEvent> := [];
    for i := 0 to |lines.items|
      invariant out + [] == out
      invariant Collect(FRESH, lines.items, failed) == out + Collect(State(cur, haveData), lines.items[i..], failed)
    {
      var line := lines.items[i];
      assert lines.items[i..][1..] == lines.items[i + 1..];
      ghost var next := OnLine(State(cur, haveData), line);
      Associative(out, next.1, Collect(next.0, lines.items[i + 1..], failed));
      if line == [] {
        if haveData {
          out := out + [cur];
          cur, haveData := NO_EVENT, false;
        }
        continue;
      }
      if line[0] == COLON { continue; }
      var (field, value) := SplitField(line);
      if field == DATA {
        if haveData { cur := cur.(data := cur.data + [LF]); }
        cur := cur.(data := cur.data + value);
        haveData := true;
      } else if field == EVENT {
        cur := cur.(event := Some(value));
      }
    }
    if lines.failed { return Yield(out, true); }
    if haveData { out := out + [cur]; }
    return Yield(out, false);
  }

  // ---------------------------------------------------------------- what a failure costs

  lemma {:induction false} CollectGrows(st: State, a: seq<Bytes>, b: seq<Bytes>, failed: bool)
    ensures Collect(st, a, true) <= Collect(st, a + b, failed)
    decreases |a|
  {
    hide OnLine;
    if a != [] {
      CollectGrows(OnLine(st, a[0]).0, a[1..], b, failed);
      assert (a + b)[1..] == a[1..] + b;
    }
  }

  /** A stream that fails has yielded a prefix of the events it would have yielded by going on. */
  lemma {:induction false} FailedStreamYieldsPrefix(a: Bytes, b: Bytes, failed: bool)
    ensures EventsOf(SplitLines(a, true)).items <= EventsOf(SplitLines(a + b, failed)).items
  {
    hide Terminated, Partial, Collect;
    LinesAppend(a, b);
    var rest := Terminated(Partial(a) + b);
    var tail := if failed || Partial(a + b) == [] then [] else [Partial(a + b)];
    Associative(Terminated(a), rest, tail);
    assert Terminated(a) + [] == Terminated(a);
    CollectGrows(FRESH, Terminated(a), rest + tail, failed);
  }

  // ---------------------------------------------------------------- round trip

  /** A line as written: its text, and which of the two terminators follows. */
  datatype Written = Written(text: Bytes, crlf: bool)

  predicate Writable(w: Written) {
    LF !in w.text && (!w.crlf && w.text != [] ==> w.text[|w.text| - 1] != CR)
  }

  function Render(w: Written): Bytes {
    w.text + (if w.crlf then [CR, LF] else [LF])
  }

  function RenderAll(ws: seq<Written>): Bytes {
    if ws == [] then [] else Render(ws[0]) + RenderAll(ws[1..])
  }

  function Texts(ws: seq<Written>): seq<Bytes> {
    if ws == [] then [] else [ws[0].text] + Texts(ws[1..])
  }

  lemma {:induction false} RenderedLine(w: Written, rest: Bytes)
    requires Writable(w)
    ensures Terminated(Render(w) + rest) == [w.text] + Terminated(rest)
    ensures Partial(Render(w) + rest) == Partial(rest)
  {
    hide Terminated, Partial;
    var line := if w.crlf then w.text + [CR] else w.text;
    assert Render(w) + rest == line + [LF] + rest;
    assert StripCr(line) == w.text;
    FirstNewline(line, rest);
  }

  /** Splitting gives back the lines that were written, whatever mix of terminators ended them. */
  lemma {:induction false} SplitInvertsRender(ws: seq<Written>)
    requires forall w <- ws :: Writable(w)
    ensures Terminated(RenderAll(ws)) == Texts(ws) && Partial(RenderAll(ws)) == []
  {
    hide Render, Writable;
    if ws != [] {
      RenderedLine(ws[0], RenderAll(ws[1..]));
      SplitInvertsRender(ws[1..]);
    }
  }

  /** Comments and fields other than `data` and `event`. */
  predicate Inert(line: Bytes) {
    line != [] && (line[0] == COLON || SplitField(line).0 !in {DATA, EVENT})
  }

  function Active(lines: seq<Bytes>): seq<Bytes> {
    if lines == [] then []
    else (if Inert(lines[0]) then [] else [lines[0]]) + Active(lines[1..])
  }

  /** Inert lines, anywhere between the others, change nothing. */
  lemma {:induction false} InertLinesAreIgnored(st: State, lines: seq<Bytes>, failed: bool)
    ensures Collect(st, lines, failed) == Collect(st, Active(lines), failed)
    decreases |lines|
  {
    if lines != [] {
      var next := OnLine(st, lines[0]).0;
      InertLinesAreIgnored(next, lines[1..], failed);
      if Inert(lines[0]) {
        assert OnLine(st, lines[0]) == (st, []);
        assert [] + Active(lines[1..]) == Active(lines[1..]);
      } else {
        assert Active(lines)[1..] == Active(lines[1..]);
      }
    }
  }

  /** An event as written: an optional name and at least one data line. */
  datatype Source = Source(name: Option<Bytes>, data: seq<Bytes>)

  function DataLine(d: Bytes): Bytes {
    DATA + [COLON, SPACE] + d
  }

  function DataLines(data: seq<Bytes>): seq<Bytes> {
    if data == [] then [[]] else [DataLine(data[0])] + DataLines(data[1..])
  }

  function LinesOf(e: Source): seq<Bytes> {
    (match e.name case None => [] case Some(name) => [EVENT + [COLON, SPACE] + name]) + DataLines(e.data)
  }

  function LinesOfAll(es: seq<Source>): seq<Bytes> {
    if es == [] then [] else LinesOf(es[0]) + LinesOfAll(es[1..])
  }

  function Join(data: seq<Bytes>): Bytes
    requires data != []
  {
    if |data| == 1 then data[0] else data[0] + [LF] + Join(data[1..])
  }

  function EventOf(e: Source): SseEvent
    requires e.data != []
  {
    SseEvent(e.name, Join(e.data))
  }

  function EventsOfAll(es: seq<Source>): (r: seq<SseEvent>)
    requires forall e <- es :: e.data != []
  {
    if es == [] then [] else [EventOf(es[0])] + EventsOfAll(es[1..])
  }

  lemma {:induction false} FieldLine(field: Bytes, value: Bytes)
    requires COLON !in field
    ensures SplitField(field + [COLON, SPACE] + value) == (field, value)
  {
    var line := field + [COLON, SPACE] + value;
    assert line == field + [COLON] + ([SPACE] + value);
    MemchrIs(COLON, field, [SPACE] + value);
    assert line[|field| + 1..] == [SPACE] + value && line[..|field|] == field;
  }

  lemma {:induction false} DataLinesAccumulate(cur: SseEvent, data: seq<Bytes>, rest: seq<Bytes>, failed: bool)
    ensures Collect(State(cur, true), DataLines(data) + rest, failed) ==
            [cur.(data := if data == [] then cur.data else cur.data + [LF] + Join(data))] + Collect(FRESH, rest, failed)
    decreases |data|
  {
    hide SplitField;
    var lines := DataLines(data) + rest;
    if data == [] {
      assert lines[1..] == rest;
    } else {
      var next := cur.(data := cur.data + [LF] + data[0]);
      FieldLine(DATA, data[0]);
      assert lines[0] == DataLine(data[0]) && lines[1..] == DataLines(data[1..]) + rest;
      assert OnLine(State(cur, true), lines[0]) == (State(next, true), []);
      DataLinesAccumulate(next, data[1..], rest, failed);
      if |data| > 1 {
        assert cur.data + [LF] + (data[0] + [LF] + Join(data[1..])) ==
               cur.data + [LF] + data[0] + [LF] + Join(data[1..]);
      }
    }
  }

  lemma {:induction false} DataLinesDispatch(name: Option<Bytes>, data: seq<Bytes>, rest: seq<Bytes>, failed: bool)
    requires data != []
    ensures Collect(State(SseEvent(name, []), false), DataLines(data) + rest, failed) ==
            [SseEvent(name, Join(data))] + Collect(FRESH, rest, failed)
  {
    hide SplitField;
    var lines := DataLines(data) + rest;
    FieldLine(DATA, data[0]);
    assert lines[0] == DataLine(data[0]) && lines[1..] == DataLines(data[1..]) + rest;
    assert [] + data[0] == data[0];
    assert OnLine(State(SseEvent(name, []), false), lines[0]) == (State(SseEvent(name, data[0]), true), []);
    DataLinesAccumulate(SseEvent(name, data[0]), data[1..], rest, failed);
  }

  lemma {:induction false} CollectInvertsLines(es: seq<Source>, failed: bool)
    requires forall e <- es :: e.data != []
    ensures Collect(FRESH, LinesOfAll(es), failed) == EventsOfAll(es)
  {
    hide SplitField, DataLines, Join;
    if es != [] {
      var e, rest := es[0], LinesOfAll(es[1..]);
      CollectInvertsLines(es[1..], failed);
      DataLinesDispatch(e.name, e.data, rest, failed);
      match e.name {
        case None =>
          assert [] + DataLines(e.data) == DataLines(e.data);
        case Some(name) =>
          var line := EVENT + [COLON, SPACE] + name;
          FieldLine(EVENT, name);
          assert OnLine(FRESH, line) == (State(SseEvent(e.name, []), false), []);
          assert LinesOfAll(es) == [line] + (DataLines(e.data) + rest);
          assert LinesOfAll(es)[1..] == DataLines(e.data) + rest;
      }
    }
  }

  /**
   Parsing what was printed gives back the events: whatever terminators and inert lines were
   written between the lines, and however the bytes are cut into chunks.
   */
  lemma {:induction false} EventsInvertPrinting(es: seq<Source>, ws: seq<Written>, chunks: seq<Bytes>, failed: bool)
    requires forall e <- es :: e.data != []
    requires forall w <- ws :: Writable(w)
    requires Active(Texts(ws)) == LinesOfAll(es)
    requires Concat(chunks) == RenderAll(ws)
    ensures EventsOf(SplitLines(Concat(chunks), failed)) == Yield(EventsOfAll(es), failed)
  {
    hide Terminated, Partial, Collect, Active, Writable;
    SplitInvertsRender(ws);
    assert Texts(ws) + [] == Texts(ws);
    InertLinesAreIgnored(FRESH, Texts(ws), failed);
    CollectInvertsLines(es, failed);
  }
}
