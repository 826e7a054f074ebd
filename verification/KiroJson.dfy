/**
 RFC 8259 texts as concrete syntax trees, and the proof that the brace-counting scanner
 finds the end of every object they print.
 */
module KiroJson {
  import opened Prelude
  import opened KiroParser

  /** Section 7: an unescaped character, a two-character escape, or `\uXXXX`. */
  datatype StrItem = Plain(c: char) | Escaped(c: char) | Unicode(hex: string)

  /** Sections 3 to 6: `space` is the insignificant whitespace of an empty array or object. */
  datatype Text =
    | Atom(lexeme: string)
    | Quoted(items: seq<StrItem>)
    | ArrayText(space: string, elems: seq<Padded>)
    | ObjectText(space: string, members: seq<Field>)
  datatype Padded = Padded(before: string, text: Text, after: string)
  datatype Field = Field(before: string, key: seq<StrItem>, after: string, value: Padded)

  predicate IsHexDigit(c: char) {
    IsDigit(c) || 'a' <= c <= 'f' || 'A' <= c <= 'F'
  }

  predicate IsBlank(c: char) {
    c == ' ' || c == '\t' || c == '\n' || c == '\r'
  }

  predicate IsNumberChar(c: char) {
    IsDigit(c) || c == '+' || c == '-' || c == '.' || c == 'e' || c == 'E'
  }

  predicate ValidItem(i: StrItem) {
    match i
    case Plain(c) => c != '"' && c != '\\' && c >= ' '
    case Escaped(c) => c in "\"\\/bfnrt"
    case Unicode(hex) => |hex| == 4 && forall i | 0 <= i < 4 :: IsHexDigit(hex[i])
  }

  predicate Blank(s: string) {
    forall i | 0 <= i < |s| :: IsBlank(s[i])
  }

  /** The characters of a number or of `null`, `true`, `false`. */
  predicate ValidLexeme(s: string) {
    s in ["null", "true", "false"] || (s != "" && forall i | 0 <= i < |s| :: IsNumberChar(s[i]))
  }

  predicate ValidText(t: Text) {
    match t
    case Atom(lexeme) => ValidLexeme(lexeme)
    case Quoted(items) => forall i <- items :: ValidItem(i)
    case ArrayText(space, elems) => Blank(space) && forall e <- elems :: ValidPadded(e)
    case ObjectText(space, members) => Blank(space) && forall m <- members :: ValidField(m)
  }

  predicate ValidPadded(p: Padded) {
    Blank(p.before) && ValidText(p.text) && Blank(p.after)
  }

  predicate ValidField(f: Field) {
    Blank(f.before) && (forall i <- f.key :: ValidItem(i)) && Blank(f.after) && ValidPadded(f.value)
  }

  // ---------------------------------------------------------------- printer

  function PrintItem(i: StrItem): string {
    match i case Plain(c) => [c] case Escaped(c) => ['\\', c] case Unicode(hex) => "\\u" + hex
  }

  function PrintItems(items: seq<StrItem>): string {
    if items == [] then "" else PrintItem(items[0]) + PrintItems(items[1..])
  }

  function PrintQuoted(items: seq<StrItem>): string {
    "\"" + PrintItems(items) + "\""
  }

  function Print(t: Text): string
    decreases t
  {
    match t
    case Atom(lexeme) => lexeme
    case Quoted(items) => PrintQuoted(items)
    case ArrayText(space, elems) => "[" + (if elems == [] then space else PrintElems(elems)) + "]"
    case ObjectText(space, members) => "{" + (if members == [] then space else PrintMembers(members)) + "}"
  }

  function PrintPadded(p: Padded): string
    decreases p
  {
    p.before + Print(p.text) + p.after
  }

  function PrintElems(elems: seq<Padded>): string
    requires elems != []
    decreases elems
  {
    if |elems| == 1 then PrintPadded(elems[0])
    else PrintPadded(elems[0]) + ("," + PrintElems(elems[1..]))
  }

  function PrintField(f: Field): string
    decreases f
  {
    f.before + PrintQuoted(f.key) + f.after + ":" + PrintPadded(f.value)
  }

  function PrintMembers(members: seq<Field>): string
    requires members != []
    decreases members
  {
    if |members| == 1 then PrintField(members[0])
    else PrintField(members[0]) + ("," + PrintMembers(members[1..]))
  }

  // ---------------------------------------------------------------- the scanner on printed text

  /** Scanning all of `s`: the state reached, or the closing brace met on the way. */
  datatype Run = Reached(st: Scan) | Stopped

  function RunOver(s: string, st: Scan): Run {
    if s == "" then Reached(st)
    else match Advance(st, s[0]) case Closed => Stopped case Open(next) => RunOver(s[1..], next)
  }

  lemma {:induction false} RunOverAppend(a: string, b: string, st: Scan)
    ensures RunOver(a + b, st) == match RunOver(a, st) case Stopped => Stopped case Reached(mid) => RunOver(b, mid)
  {
    if a == "" {
      assert a + b == b;
    } else {
      match Advance(st, a[0]) {
        case Closed =>
        case Open(next) =>
          RunOverAppend(a[1..], b, next);
          assert (a + b)[1..] == a[1..] + b;
      }
    }
  }

  lemma {:induction false} ScanAfterRun(a: string, b: string, st: Scan)
    requires RunOver(a, st).Reached?
    ensures ScanFrom(a + b, st) ==
            match ScanFrom(b, RunOver(a, st).st) case None => None case Some(k) => Some(|a| + k)
  {
    if a == "" {
      assert a + b == b;
    } else {
      ScanAfterRun(a[1..], b, Advance(st, a[0]).next);
      assert (a + b)[1..] == a[1..] + b;
    }
  }

  /** Inside an object, outside strings, `s` leaves the scanner where it found it. */
  ghost predicate Neutral(s: string) {
    forall brace: int :: brace >= 1 ==> RunOver(s, Scan(brace, false, false)) == Reached(Scan(brace, false, false))
  }

  lemma {:induction false} NeutralAppend(a: string, b: string)
    requires Neutral(a) && Neutral(b)
    ensures Neutral(a + b)
  {
    forall brace: int | brace >= 1
      ensures RunOver(a + b, Scan(brace, false, false)) == Reached(Scan(brace, false, false))
    {
      RunOverAppend(a, b, Scan(brace, false, false));
    }
  }

  /** A character that the scanner passes over. */
  predicate IsPlain(c: char, inString: bool) {
    c != '"' && c != '\\' && (inString || (c != '{' && c != '}'))
  }

  lemma {:induction false} PlainIsNeutral(s: string)
    requires forall i | 0 <= i < |s| :: IsPlain(s[i], false)
    ensures Neutral(s)
  {
    forall brace: int | brace >= 1
      ensures RunOver(s, Scan(brace, false, false)) == Reached(Scan(brace, false, false))
    {
      PlainKeeps(s, Scan(brace, false, false));
    }
  }

  lemma {:induction false} PlainKeeps(s: string, st: Scan)
    requires forall i | 0 <= i < |s| :: IsPlain(s[i], st.inString)
    requires !st.escape
    ensures RunOver(s, st) == Reached(st)
  {
    if s != "" {
      PlainKeeps(s[1..], st);
    }
  }

  lemma {:induction false} ItemsStayInString(items: seq<StrItem>, st: Scan)
    requires forall i <- items :: ValidItem(i)
    requires st.inString && !st.escape
    ensures RunOver(PrintItems(items), st) == Reached(st)
  {
    if items != [] {
      ItemStaysInString(items[0], st);
      ItemsStayInString(items[1..], st);
      RunOverAppend(PrintItem(items[0]), PrintItems(items[1..]), st);
    }
  }

  lemma {:induction false} EscapeIsSkipped(c: char, rest: string, st: Scan)
    requires !st.escape
    ensures RunOver(['\\', c] + rest, st) == RunOver(rest, st)
  {
    var s := ['\\', c] + rest;
    assert s[1..] == [c] + rest && s[1..][1..] == rest;
    assert RunOver(s[1..], st.(escape := true)) == RunOver(rest, st);
  }

  lemma {:induction false} ItemStaysInString(i: StrItem, st: Scan)
    requires ValidItem(i) && st.inString && !st.escape
    ensures RunOver(PrintItem(i), st) == Reached(st)
  {
    hide RunOver;
    match i {
      case Plain(c) => PlainKeeps([c], st);
      case Escaped(c) =>
        PlainKeeps("", st);
        EscapeIsSkipped(c, "", st);
        assert ['\\', c] + "" == ['\\', c];
      case Unicode(hex) =>
        PlainKeeps(hex, st);
        EscapeIsSkipped('u', hex, st);
    }
  }

  lemma {:induction false} QuotedIsNeutral(items: seq<StrItem>)
    requires forall i <- items :: ValidItem(i)
    ensures Neutral(PrintQuoted(items))
  {
    forall brace: int | brace >= 1
      ensures RunOver(PrintQuoted(items), Scan(brace, false, false)) == Reached(Scan(brace, false, false))
    {
      var st, inside := Scan(brace, false, false), Scan(brace, true, false);
      var body := PrintItems(items);
      assert PrintQuoted(items)[1..] == body + "\"";
      ItemsStayInString(items, inside);
      RunOverAppend(body, "\"", inside);
      assert "\""[1..] == "";
      assert RunOver("\"", inside) == Reached(st);
    }
  }

  /** A printed value, object or not, is neutral when it is nested in an object. */
  lemma {:induction false} PrintIsNeutral(t: Text)
    requires ValidText(t)
    ensures Neutral(Print(t))
    decreases t
  {
    hide Neutral;
    match t {
      case Atom(lexeme) => PlainIsNeutral(lexeme);
      case Quoted(items) => QuotedIsNeutral(items);
      case ArrayText(space, elems) =>
        var body := if elems == [] then space else PrintElems(elems);
        if elems == [] { PlainIsNeutral(space); } else { ElemsNeutral(elems); }
        BracketsNeutral(body);
      case ObjectText(space, members) =>
        BodyNeutral(t);
        BracesNeutral(Body(t));
        assert Print(t) == "{" + (Body(t) + "}");
    }
  }

  lemma {:induction false} BracketsNeutral(body: string)
    requires Neutral(body)
    ensures Neutral("[" + body + "]")
  {
    hide Neutral;
    PlainIsNeutral("[");
    PlainIsNeutral("]");
    NeutralAppend("[", body);
    NeutralAppend("[" + body, "]");
  }

  function Body(t: Text): (s: string)
    requires t.ObjectText?
    ensures Print(t) == "{" + s + "}"
  {
    if t.members == [] then t.space else PrintMembers(t.members)
  }

  lemma {:induction false} BodyNeutral(t: Text)
    requires t.ObjectText? && ValidText(t)
    ensures Neutral(Body(t))
    decreases t, 0
  {
    hide Neutral;
    if t.members == [] { PlainIsNeutral(t.space); } else { MembersNeutral(t.members); }
  }

  lemma {:induction false} RunFirst(c: char, rest: string, st: Scan)
    ensures RunOver([c] + rest, st) ==
            match Advance(st, c) case Closed => Stopped case Open(next) => RunOver(rest, next)
  {
    assert ([c] + rest)[1..] == rest;
  }

  lemma {:induction false} BracesNeutral(body: string)
    requires Neutral(body)
    ensures Neutral("{" + (body + "}"))
  {
    hide RunOver;
    forall brace: int | brace >= 1
      ensures RunOver("{" + (body + "}"), Scan(brace, false, false)) == Reached(Scan(brace, false, false))
    {
      var st := Scan(brace + 1, false, false);
      RunFirst('{', body + "}", Scan(brace, false, false));
      RunOverAppend(body, "}", st);
      RunFirst('}', "", st);
      PlainKeeps("", Scan(brace, false, false));
      assert ['}'] + "" == "}";
    }
  }

  lemma {:induction false} PaddedNeutral(p: Padded)
    requires ValidPadded(p)
    ensures Neutral(PrintPadded(p))
    decreases p
  {
    hide Neutral;
    PlainIsNeutral(p.before);
    PrintIsNeutral(p.text);
    PlainIsNeutral(p.after);
    NeutralAppend(p.before, Print(p.text));
    NeutralAppend(p.before + Print(p.text), p.after);
  }

  lemma {:induction false} ElemsNeutral(elems: seq<Padded>)
    requires elems != [] && forall e <- elems :: ValidPadded(e)
    ensures Neutral(PrintElems(elems))
    decreases elems
  {
    hide Neutral;
    PaddedNeutral(elems[0]);
    if |elems| > 1 {
      ElemsNeutral(elems[1..]);
      PlainIsNeutral(",");
      NeutralAppend(",", PrintElems(elems[1..]));
      NeutralAppend(PrintPadded(elems[0]), "," + PrintElems(elems[1..]));
    }
  }

  lemma {:induction false} FieldNeutral(f: Field)
    requires ValidField(f)
    ensures Neutral(PrintField(f))
    decreases f
  {
    hide Neutral;
    var s := f.before;
    PlainIsNeutral(s);
    QuotedIsNeutral(f.key);
    NeutralAppend(s, PrintQuoted(f.key));
    s := s + PrintQuoted(f.key);
    PlainIsNeutral(f.after);
    NeutralAppend(s, f.after);
    s := s + f.after;
    PlainIsNeutral(":");
    NeutralAppend(s, ":");
    s := s + ":";
    PaddedNeutral(f.value);
    NeutralAppend(s, PrintPadded(f.value));
  }

  lemma {:induction false} MembersNeutral(members: seq<Field>)
    requires members != [] && forall m <- members :: ValidField(m)
    ensures Neutral(PrintMembers(members))
    decreases members
  {
    hide Neutral;
    FieldNeutral(members[0]);
    if |members| > 1 {
      MembersNeutral(members[1..]);
      PlainIsNeutral(",");
      NeutralAppend(",", PrintMembers(members[1..]));
      NeutralAppend(PrintField(members[0]), "," + PrintMembers(members[1..]));
    }
  }

  /** The scanner stops exactly at the closing brace of a printed object, whatever follows. */
  lemma {:induction false} ObjectEndIsClosingBrace(t: Text, rest: string)
    requires t.ObjectText? && ValidText(t)
    ensures ScanFrom(Print(t) + rest, START) == Some(|Print(t)| - 1)
  {
    hide Print, RunOver, Body;
    var body := Body(t);
    var inside := Scan(1, false, false);
    BodyNeutral(t);
    assert RunOver(body, inside) == Reached(inside);
    ScanAfterRun(body, "}" + rest, inside);
    assert ScanFrom("}" + rest, inside) == Some(0);
    var s := Print(t) + rest;
    assert s[0] == '{' && s[1..] == body + ("}" + rest);
  }

  // ---------------------------------------------------------------- streams of objects

  /** An object the stream carries, after bytes in which no object starts. */
  datatype Segment = Segment(junk: string, text: Text)

  predicate MarkerLed(seg: Segment) {
    && seg.text.ObjectText?
    && ValidText(seg.text)
    && Earliest(seg.junk + Print(seg.text), Markers()) == Some(|seg.junk|)
  }

  predicate AllMarkerLed(segs: seq<Segment>) {
    forall i | 0 <= i < |segs| :: MarkerLed(segs[i])
  }

  /** Text that holds no complete object: no marker, or an object that is not closed. */
  predicate Incomplete(tail: string) {
    match Earliest(tail, Markers())
    case None => true
    case Some(i) => i <= |tail| && ScanFrom(tail[i..], START).None?
  }

  function PrintAll(segs: seq<Segment>): string {
    if segs == [] then "" else segs[0].junk + Print(segs[0].text) + PrintAll(segs[1..])
  }

  function EmitAll(segs: seq<Segment>, lib: JsonLib): seq<Event> {
    if segs == [] then [] else Emit(Print(segs[0].text), lib) + EmitAll(segs[1..], lib)
  }

  lemma {:induction false} FirstObject(seg: Segment, rest: string)
    requires MarkerLed(seg)
    ensures Earliest(seg.junk + Print(seg.text) + rest, Markers()) == Some(|seg.junk|)
  {
    EarliestStable(seg.junk + Print(seg.text), rest, |seg.junk|);
  }

  /** A stream of marker-led objects yields the events of each object, in order, and keeps only the tail. */
  lemma {:induction false} StreamOfObjects(segs: seq<Segment>, tail: string, lib: JsonLib)
    requires AllMarkerLed(segs) && Incomplete(tail)
    ensures Parse(PrintAll(segs) + tail, lib) == Parsed(EmitAll(segs, lib), tail)
  {
    hide Markers, Earliest, Print, Parse, Emit, ScanFrom;
    var s := PrintAll(segs) + tail;
    if segs == [] {
      assert s == tail;
      ParseStops(s, lib);
    } else {
      var seg, later := segs[0], PrintAll(segs[1..]) + tail;
      var i, text := |seg.junk|, Print(seg.text);
      assert s == seg.junk + text + later;
      FirstObject(seg, later);
      ObjectEndIsClosingBrace(seg.text, later);
      assert s[i..] == text + later;
      assert |text| > 0 by { assert Print(seg.text) == "{" + Body(seg.text) + "}"; }
      ParseStep(s, i, |text| - 1, lib);
      assert s[i..i + |text|] == text && s[i + |text|..] == later;
      StreamOfObjects(segs[1..], tail, lib);
    }
  }

  /** The same, however the stream is cut into chunks: inside markers, strings or escapes. */
  lemma {:induction false} ChunkedStreamOfObjects(segs: seq<Segment>, tail: string, chunks: seq<string>, lib: JsonLib)
    requires AllMarkerLed(segs) && Incomplete(tail)
    requires Concat(chunks) == PrintAll(segs) + tail
    ensures Feed(chunks, "", lib) == Parsed(EmitAll(segs, lib), tail)
  {
    ParseNothing(lib);
    FeedIsParse(chunks, "", lib);
    StreamOfObjects(segs, tail, lib);
    assert "" + Concat(chunks) == Concat(chunks);
  }

  /** Bytes without an opening brace may stand before an object that starts with a marker, and end a stream. */
  lemma {:induction false} PlainJunk(junk: string, text: Text)
    requires forall i | 0 <= i < |junk| :: junk[i] != '{'
    ensures text.ObjectText? && ValidText(text) && MarkerAt(Print(text), 0) ==> MarkerLed(Segment(junk, text))
    ensures Incomplete(junk)
  {
    hide Markers, Earliest, Print;
    if Earliest(junk, Markers()).Some? { EarliestInside(junk, Earliest(junk, Markers()).value); }
    if MarkerAt(Print(text), 0) {
      MarkersOpen();
      var n, s := |junk|, junk + Print(text);
      var m :| m in Markers() && At(Print(text), 0, m);
      assert s[n..n + |m|] == m && s[n] == m[0];
      assert At(s, n, m);
      forall q, m' | 0 <= q < n && m' in Markers()
        ensures !At(s, q, m')
      {
        assert s[q] == junk[q];
        if q + |m'| <= |s| { assert s[q..q + |m'|][0] == s[q]; }
      }
      EarliestIs(s, n);
    }
  }

  /** The objects of a stream report these events, as far as the JSON library reads them. */
  predicate AllReport(segs: seq<Segment>, evs: seq<Event>, lib: JsonLib) {
    |segs| == |evs| && forall i | 0 <= i < |segs| :: lib.parse(Print(segs[i].text)) == Some(Report(evs[i]))
  }

  lemma {:induction false} ReportsAreEmitted(segs: seq<Segment>, evs: seq<Event>, lib: JsonLib)
    requires AllReport(segs, evs, lib)
    ensures EmitAll(segs, lib) == evs
  {
    hide Print, Classify, Report;
    if segs != [] {
      ClassifyInvertsReport(evs[0], lib);
      ReportsAreEmitted(segs[1..], evs[1..], lib);
      assert evs == [evs[0]] + evs[1..];
    }
  }

  /** A stream of objects that report events yields exactly those events, however it is cut into chunks. */
  lemma {:induction false} StreamOfReports(
    segs: seq<Segment>, evs: seq<Event>, tail: string, chunks: seq<string>, lib: JsonLib)
    requires AllMarkerLed(segs) && Incomplete(tail) && AllReport(segs, evs, lib)
    requires Concat(chunks) == PrintAll(segs) + tail
    ensures Feed(chunks, "", lib) == Parsed(evs, tail)
  {
    ReportsAreEmitted(segs, evs, lib);
    ChunkedStreamOfObjects(segs, tail, chunks, lib);
  }
}
