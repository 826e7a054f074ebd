/**
 Gemini's length-prefixed frames: `<digits>\n<body>`, where the length counts UTF-16 code units
 from the newline on. Text may arrive in any pieces; what is not yet a complete frame waits as the
 tail. Frames hold JSON, of which arrays yield their items.
 */
module GeminiParser {
  import opened JsonValue
  import opened Prelude

  const USIZE_LIMIT := 0x1_0000_0000_0000_0000

  /** The Unicode `White_Space` property, as `char::is_whitespace` and `str::trim` use it. */
  predicate IsWhitespace(c: char) {
    var u := c as int;
    || 0x9 <= u <= 0xD || u == 0x20 || u == 0x85 || u == 0xA0 || u == 0x1680
    || 0x2000 <= u <= 0x200A || u == 0x2028 || u == 0x2029 || u == 0x202F || u == 0x205F || u == 0x3000
  }

  predicate Blank(s: string) {
    forall i | 0 <= i < |s| :: IsWhitespace(s[i])
  }

  // ---------------------------------------------------------------- UTF-16 lengths

  /** The UTF-16 code units of a character: itself, or a surrogate pair (section 2.1 of RFC 2781). */
  function Utf16Of(c: char): (r: seq<int>)
    ensures |r| == CharUnits(c)
  {
    var u := c as int;
    if u <= 0xFFFF then [u] else [0xD800 + (u - 0x1_0000) / 0x400, 0xDC00 + (u - 0x1_0000) % 0x400]
  }

  function CharUnits(c: char): (n: nat)
    ensures 1 <= n <= 2
  {
    if c as int > 0xFFFF then 2 else 1
  }

  function Utf16(s: string): seq<int> {
    if s == "" then [] else Utf16Of(s[0]) + Utf16(s[1..])
  }

  function Units(s: string): (n: nat)
    ensures n == |Utf16(s)|
  {
    if s == "" then 0 else CharUnits(s[0]) + Units(s[1..])
  }

  lemma {:induction false} UnitsAppend(a: string, b: string)
    ensures Units(a + b) == Units(a) + Units(b)
  {
    hide Utf16, CharUnits;
    if a == "" {
      assert a + b == b;
    } else {
      UnitsAppend(a[1..], b);
      assert (a + b)[1..] == a[1..] + b;
    }
  }

  /** How many characters of `s` fit in `budget` code units, taken greedily. */
  function Fit(s: string, budget: nat): (n: nat)
    ensures n <= |s| && Units(s[..n]) <= budget
    ensures n < |s| ==> Units(s[..n + 1]) > budget
  {
    hide Utf16, CharUnits;
    if s == "" || CharUnits(s[0]) > budget then
      assert s != "" ==> s[..1][1..] == "";
      0
    else
      var n := Fit(s[1..], budget - CharUnits(s[0]));
      assert s[..n + 1][1..] == s[1..][..n];
      assert n + 1 < |s| ==> s[..n + 2][1..] == s[1..][..n + 1];
      n + 1
  }

  lemma {:induction false} UnitsStep(s: string, n: nat)
    requires n < |s|
    ensures Units(s[..n + 1]) == Units(s[..n]) + CharUnits(s[n])
  {
    UnitsAppend(s[..n], [s[n]]);
    assert s[..n] + [s[n]] == s[..n + 1] && [s[n]][1..] == "";
  }

  method CharsForUtf16Units(chars: string, start: nat, utf16Units: nat) returns (count: nat, units: nat)
    requires start <= |chars|
    ensures count == Fit(chars[start..], utf16Units)
    ensures units == Units(chars[start..][..count])
  {
    hide Fit, Units;
    count, units := 0, 0;
    ghost var rest := chars[start..];
    assert Units("") == 0 && rest[..0] == "";
    while units < utf16Units && start + count < |chars|
      invariant count <= |rest|
      invariant units == Units(rest[..count]) <= utf16Units
    {
      UnitsStep(rest, count);
      var ch := chars[start + count];
      var charUnits := if ch as int > 0xFFFF then 2 else 1;
      if units + charUnits > utf16Units { break; }
      units := units + charUnits;
      count := count + 1;
    }
    if count < |rest| { UnitsStep(rest, count); }
    FitIsUnique(rest, utf16Units, count);
  }

  lemma {:induction false} UnitsMonotone(s: string, m: nat, n: nat)
    requires m <= n <= |s|
    ensures Units(s[..m]) <= Units(s[..n])
  {
    UnitsAppend(s[..m], s[m..n]);
    assert s[..m] + s[m..n] == s[..n];
  }

  /** The longest run of characters within the budget is the only one that cannot be extended. */
  lemma {:induction false} FitIsUnique(s: string, budget: nat, n: nat)
    requires n <= |s| && Units(s[..n]) <= budget
    requires n < |s| ==> Units(s[..n + 1]) > budget
    ensures n == Fit(s, budget)
  {
    var m := Fit(s, budget);
    if m < n { UnitsMonotone(s, m + 1, n); }
    if n < m { UnitsMonotone(s, n + 1, m); }
  }

  // ---------------------------------------------------------------- length markers

  predicate AllDigits(s: string) {
    forall i | 0 <= i < |s| :: IsDigit(s[i])
  }

  /** The length of the digit run at the start of `s`. */
  function DigitRun(s: string): (n: nat)
    ensures n <= |s| && AllDigits(s[..n]) && (n < |s| ==> !IsDigit(s[n]))
  {
    if s == "" || !IsDigit(s[0]) then 0
    else
      var n := DigitRun(s[1..]);
      assert s[..n + 1] == [s[0]] + s[1..][..n];
      n + 1
  }

  lemma {:induction false} DigitRunStep(s: string, i: nat)
    requires i <= |s|
    ensures DigitRun(s[i..]) == if i < |s| && IsDigit(s[i]) then 1 + DigitRun(s[i + 1..]) else 0
  {
    if i < |s| { TailOfTail(s, i, 1); }
  }

  function DigitValue(c: char): nat
    requires IsDigit(c)
  {
    c as int - '0' as int
  }

  function Number(digits: string): nat
    requires AllDigits(digits)
  {
    if digits == "" then 0
    else
      Number(digits[..|digits| - 1]) * 10 + DigitValue(digits[|digits| - 1])
  }

  datatype Marker = Marker(digits: nat, length: nat)

  /** A length marker at the start of `s`: digits, a newline next, a value that fits a `usize`. */
  function MarkerOf(s: string): (r: Option<Marker>)
    ensures r.Some? ==> 0 < r.value.digits < |s|
  {
    var n := DigitRun(s);
    if n == 0 || n >= |s| || s[n] != '\n' || Number(s[..n]) >= USIZE_LIMIT then None
    else Some(Marker(n, Number(s[..n])))
  }

  method MatchLengthMarker(chars: string, pos: nat) returns (r: Option<Marker>)
    requires pos <= |chars|
    ensures r == MarkerOf(chars[pos..])
  {
    hide DigitRun, Number;
    var i := pos;
    while i < |chars| && '0' <= chars[i] <= '9'
      invariant pos <= i <= |chars|
      invariant DigitRun(chars[pos..]) == i - pos + DigitRun(chars[i..])
    {
      DigitRunStep(chars, i);
      i := i + 1;
    }
    DigitRunStep(chars, i);
    var digitCount := i - pos;
    SliceOfTail(chars, pos, 0, digitCount);
    if digitCount == 0 || i >= |chars| || chars[i] != '\n' { return None; }
    var length := Number(chars[pos..i]);
    if length >= USIZE_LIMIT { return None; }
    return Some(Marker(digitCount, length));
  }

  // ---------------------------------------------------------------- frames

  function SkipBlank(s: string): (n: nat)
    ensures n <= |s| && Blank(s[..n]) && (n < |s| ==> !IsWhitespace(s[n]))
  {
    if s == "" || !IsWhitespace(s[0]) then 0
    else
      var n := SkipBlank(s[1..]);
      assert s[..n + 1] == [s[0]] + s[1..][..n];
      n + 1
  }

  /** The whitespace loop at the head of every round. */
  method SkipWhitespace(chars: string, start: nat) returns (pos: nat)
    requires start <= |chars|
    ensures pos == start + SkipBlank(chars[start..])
  {
    pos := start;
    while pos < |chars| && IsWhitespace(chars[pos])
      invariant start <= pos <= |chars|
      invariant SkipBlank(chars[start..]) == pos - start + SkipBlank(chars[pos..])
    {
      assert chars[pos..][1..] == chars[pos + 1..];
      pos := pos + 1;
    }
  }

  /** `str::trim`. */
  function Trim(s: string): string {
    TrimEnd(s[SkipBlank(s)..])
  }

  function TrimEnd(s: string): string {
    if s != "" && IsWhitespace(s[|s| - 1]) then TrimEnd(s[..|s| - 1]) else s
  }

  /** What a frame body contributes: an array's items, any other value, nothing when it does not parse. */
  function EmitBody(body: string, parse: string -> Option<Value>): seq<Value> {
    match parse(body)
    case None => []
    case Some(Arr(items)) => items
    case Some(other) => [other]
  }

  function Emit(chunk: string, parse: string -> Option<Value>): seq<Value> {
    var body := Trim(chunk);
    if body == "" then [] else EmitBody(body, parse)
  }

  datatype Frames = Frames(values: seq<Value>, rest: string)

  /** The frame at the start of `s`, which is not blank there: its end, or None when it is not complete. */
  function FrameEnd(s: string): (r: Option<nat>)
    ensures r.Some? ==> MarkerOf(s).Some? && 0 < MarkerOf(s).value.digits <= r.value <= |s|
  {
    match MarkerOf(s)
    case None => None
    case Some(Marker(digits, length)) =>
      var n := Fit(s[digits..], length);
      if Units(s[digits..][..n]) < length then None else Some(digits + n)
  }

  function Parse(s: string, parse: string -> Option<Value>): Frames
    decreases |s|
  {
    var t := s[SkipBlank(s)..];
    match FrameEnd(t)
    case None => Frames([], t)
    case Some(end) =>
      var later := Parse(t[end..], parse);
      Frames(Emit(t[MarkerOf(t).value.digits..end], parse) + later.values, later.rest)
  }

  lemma {:induction false} ParseStops(s: string, parse: string -> Option<Value>)
    requires FrameEnd(s[SkipBlank(s)..]).None?
    ensures Parse(s, parse) == Frames([], s[SkipBlank(s)..])
  {}

  lemma {:induction false} ParseStep(s: string, t: string, end: nat, parse: string -> Option<Value>)
    requires t == s[SkipBlank(s)..] && FrameEnd(t) == Some(end)
    ensures MarkerOf(t).Some? && MarkerOf(t).value.digits <= end <= |t|
    ensures var later := Parse(t[end..], parse);
            Parse(s, parse) == Frames(Emit(t[MarkerOf(t).value.digits..end], parse) + later.values, later.rest)
  {
    hide FrameEnd, Emit, MarkerOf;
  }

  lemma {:induction false} FrameEndIs(t: string, m: Marker, count: nat)
    requires MarkerOf(t) == Some(m) && count == Fit(t[m.digits..], m.length)
    ensures FrameEnd(t) == if Units(t[m.digits..][..count]) < m.length then None else Some(m.digits + count)
  {
    hide MarkerOf, Fit, Units;
  }

  lemma {:induction false} NoMarkerNoFrame(t: string)
    requires MarkerOf(t).None?
    ensures FrameEnd(t).None?
  {}

  /** One round of the parser, from where it skips white space to where it stands after the frame. */
  lemma {:induction false} Round(chars: string, at: nat, pos: nat, parse: string -> Option<Value>)
    requires at <= |chars| && pos == at + SkipBlank(chars[at..])
    ensures Parse(chars[at..], parse) ==
            match MarkerOf(chars[pos..])
            case None => Frames([], chars[pos..])
            case Some(m) =>
              var start := pos + m.digits;
              var count := Fit(chars[start..], m.length);
              if Units(chars[start..][..count]) < m.length then Frames([], chars[pos..])
              else
                var later := Parse(chars[start + count..], parse);
                Frames(Emit(chars[start..start + count], parse) + later.values, later.rest)
  {
    hide Fit, Units, Parse, MarkerOf, FrameEnd, SkipBlank, Emit, Blank, IsWhitespace;
    var s, t := chars[at..], chars[pos..];
    TailOfTail(chars, at, pos - at);
    match MarkerOf(t) {
      case None =>
        NoMarkerNoFrame(t);
        ParseStops(s, parse);
      case Some(m) =>
        var count := Fit(t[m.digits..], m.length);
        TailOfTail(chars, pos, m.digits);
        FrameEndIs(t, m, count);
        if Units(t[m.digits..][..count]) < m.length {
          ParseStops(s, parse);
        } else {
          var end := m.digits + count;
          SliceOfTail(chars, pos, m.digits, end);
          TailOfTail(chars, pos, end);
          ParseStep(s, t, end, parse);
        }
    }
  }

  lemma {:induction false} NoMarkerInNothing()
    ensures MarkerOf("").None?
  {}

  /** What one complete frame adds to the result. */
  method ChunkValues(text: string, parse: string -> Option<Value>) returns (values: seq<Value>)
    ensures values == Emit(text, parse)
  {
    values := [];
    var chunk := Trim(text);
    if chunk == "" { return; }
    match parse(chunk) {
      case Some(Arr(items)) => values := items;
      case Some(other) => values := [other];
      case None =>
    }
  }

  /** The frames so far, followed by what parsing from `pos` gives, are what parsing everything gives. */
  predicate StandsAt(chars: string, pos: nat, frames: seq<Value>, parse: string -> Option<Value>)
    requires pos <= |chars|
  {
    var later := Parse(chars[pos..], parse);
    Parse(chars, parse) == Frames(frames + later.values, later.rest)
  }

  lemma {:induction false} StandsAtStart(chars: string, parse: string -> Option<Value>)
    ensures StandsAt(chars, 0, [], parse)
  {
    hide Parse;
    assert chars[0..] == chars && [] + Parse(chars, parse).values == Parse(chars, parse).values;
  }

  lemma {:induction false} StandsAtEnd(
    chars: string, at: nat, frames: seq<Value>, rest: string, parse: string -> Option<Value>)
    requires at <= |chars| && StandsAt(chars, at, frames, parse) && Parse(chars[at..], parse) == Frames([], rest)
    ensures Parse(chars, parse) == Frames(frames, rest)
  {
    hide Parse;
    assert frames + [] == frames;
  }

  lemma {:induction false} StandsNext(
    chars: string, at: nat, end: nat, frames: seq<Value>, values: seq<Value>, parse: string -> Option<Value>)
    requires at <= |chars| && end <= |chars| && StandsAt(chars, at, frames, parse)
    requires var later := Parse(chars[end..], parse);
             Parse(chars[at..], parse) == Frames(values + later.values, later.rest)
    ensures StandsAt(chars, end, frames + values, parse)
  {
    hide Parse;
    Associative(frames, values, Parse(chars[end..], parse).values);
  }

  method ParseResponseFrames(content: string, parse: string -> Option<Value>)
    returns (frames: seq<Value>, remaining: string)
    ensures Frames(frames, remaining) == Parse(content, parse)
  {
    hide Fit, Units, Parse, MarkerOf, SkipBlank, Emit, StandsAt;
    var chars, total := content, |content|;
    var pos := 0;
    frames := [];
    ghost var ended := false;
    StandsAtStart(chars, parse);
    while pos < total
      invariant pos <= total && StandsAt(chars, pos, frames, parse) && !ended
      decreases total - pos
    {
      ghost var at := pos;
      pos := SkipWhitespace(chars, pos);
      Round(chars, at, pos, parse);
      NoMarkerInNothing();
      if pos >= total {
        StandsAtEnd(chars, at, frames, chars[pos..], parse);
        ended := true;
        break;
      }
      var marker := MatchLengthMarker(chars, pos);
      if marker.None? {
        StandsAtEnd(chars, at, frames, chars[pos..], parse);
        ended := true;
        break;
      }
      var startContent := pos + marker.value.digits;
      var charCount, unitsFound := CharsForUtf16Units(chars, startContent, marker.value.length);
      if unitsFound < marker.value.length {
        StandsAtEnd(chars, at, frames, chars[pos..], parse);
        ended := true;
        break;
      }
      var end := startContent + charCount;
      var values := ChunkValues(chars[startContent..end], parse);
      StandsNext(chars, at, end, frames, values, parse);
      pos := end;
      frames := frames + values;
    }
    remaining := chars[pos..];
    if !ended {
      assert remaining == "";
      NothingToParse(parse);
      StandsAtEnd(chars, pos, frames, remaining, parse);
    }
  }

  lemma {:induction false} NothingToParse(parse: string -> Option<Value>)
    ensures Parse("", parse) == Frames([], "")
  {}

  // ---------------------------------------------------------------- chunking

  lemma {:induction false} DigitRunIs(s: string, n: nat)
    requires n < |s| && AllDigits(s[..n]) && !IsDigit(s[n])
    ensures DigitRun(s) == n
  {
    if n > 0 {
      assert s[..n][0] == s[0];
      assert s[1..][..n - 1] == s[..n][1..];
      DigitRunIs(s[1..], n - 1);
    }
  }

  lemma {:induction false} SkipBlankIs(s: string, n: nat)
    requires n <= |s| && Blank(s[..n]) && (n < |s| ==> !IsWhitespace(s[n]))
    ensures SkipBlank(s) == n
  {
    if n > 0 {
      assert s[..n][0] == s[0];
      assert s[1..][..n - 1] == s[..n][1..];
      SkipBlankIs(s[1..], n - 1);
    }
  }

  lemma {:induction false} MarkerStable(a: string, b: string)
    requires MarkerOf(a).Some?
    ensures MarkerOf(a + b) == MarkerOf(a)
  {
    hide DigitRun, Number;
    var n := DigitRun(a);
    assert (a + b)[..n] == a[..n];
    DigitRunIs(a + b, n);
  }

  /** A complete frame stays the same frame when more text arrives. */
  lemma {:induction false} FrameStable(a: string, b: string)
    requires FrameEnd(a).Some?
    ensures FrameEnd(a + b) == FrameEnd(a) && MarkerOf(a + b) == MarkerOf(a)
  {
    hide MarkerOf, Fit, Units;
    MarkerStable(a, b);
    var m := MarkerOf(a).value;
    var s := a[m.digits..];
    var n := Fit(s, m.length);
    assert (a + b)[m.digits..] == s + b;
    assert (s + b)[..n] == s[..n];
    if n < |s + b| { UnitsStep(s + b, n); }
    FitIsUnique(s + b, m.length, n);
  }

  lemma {:induction false} SkipTwoPieces(a: string, b: string)
    ensures var t := a[SkipBlank(a)..];
            (a + b)[SkipBlank(a + b)..] == (t + b)[SkipBlank(t + b)..]
    ensures SkipBlank(a) < |a| ==> (a + b)[SkipBlank(a + b)..] == a[SkipBlank(a)..] + b
  {
    hide SkipBlank;
    if SkipBlank(a) < |a| {
      SkipInside(a, b);
    } else {
      SkipAll(a, b);
      assert a[SkipBlank(a)..] + b == b;
    }
  }

  lemma {:induction false} SkipInside(a: string, b: string)
    requires SkipBlank(a) < |a|
    ensures var t := a[SkipBlank(a)..]; SkipBlank(t + b) == 0 && (a + b)[SkipBlank(a + b)..] == t + b
  {
    hide SkipBlank, Blank, IsWhitespace;
    var n := SkipBlank(a);
    assert (a + b)[..n] == a[..n];
    SkipBlankIs(a + b, n);
    assert (a + b)[n..] == a[n..] + b && (a[n..] + b)[0] == a[n];
    NothingSkipped(a[n..] + b);
  }

  lemma {:induction false} SkipAll(a: string, b: string)
    requires SkipBlank(a) == |a|
    ensures (a + b)[SkipBlank(a + b)..] == b[SkipBlank(b)..]
  {
    hide SkipBlank, Blank, IsWhitespace;
    var k := SkipBlank(b);
    assert a[..|a|] == a;
    BlankAppend(a, b[..k]);
    assert (a + b)[..|a| + k] == a + b[..k];
    SkipBlankIs(a + b, |a| + k);
  }

  lemma {:induction false} BlankAppend(a: string, b: string)
    requires Blank(a) && Blank(b)
    ensures Blank(a + b)
  {}

  lemma {:induction false} NothingSkipped(s: string)
    requires s != "" && !IsWhitespace(s[0])
    ensures SkipBlank(s) == 0
  {}

  lemma {:induction false} ParseSkips(s: string, s': string, parse: string -> Option<Value>)
    requires s[SkipBlank(s)..] == s'[SkipBlank(s')..]
    ensures Parse(s, parse) == Parse(s', parse)
  {}

  /** Feeding a text in two pieces gives the values, and the tail, of feeding it whole. */
  lemma {:induction false} ParseTwoPieces(a: string, b: string, parse: string -> Option<Value>)
    ensures var first := Parse(a, parse);
            var second := Parse(first.rest + b, parse);
            Parse(a + b, parse) == Frames(first.values + second.values, second.rest)
    decreases |a|
  {
    hide FrameEnd, MarkerOf, Emit, Parse, SkipBlank;
    var t := a[SkipBlank(a)..];
    SkipTwoPieces(a, b);
    if FrameEnd(t).Some? {
      var end, digits := FrameEnd(t).value, MarkerOf(t).value.digits;
      ParseStep(a, t, end, parse);
      FrameStable(t, b);
      assert (t + b)[end..] == t[end..] + b && (t + b)[digits..end] == t[digits..end];
      ParseStep(a + b, t + b, end, parse);
      ParseTwoPieces(t[end..], b, parse);
      var later := Parse(t[end..], parse);
      Associative(Emit(t[digits..end], parse), later.values, Parse(later.rest + b, parse).values);
    } else {
      ParseStops(a, parse);
      ParseSkips(a + b, t + b, parse);
      assert [] + Parse(t + b, parse).values == Parse(t + b, parse).values;
    }
  }

  /** A stream: each chunk is appended to the tail the previous call left. */
  function Feed(chunks: seq<string>, tail: string, parse: string -> Option<Value>): Frames {
    if chunks == [] then Frames([], tail)
    else
      var now := Parse(tail + chunks[0], parse);
      var later := Feed(chunks[1..], now.rest, parse);
      Frames(now.values + later.values, later.rest)
  }

  lemma {:induction false} ParseTailAgain(s: string, parse: string -> Option<Value>)
    ensures Parse(Parse(s, parse).rest, parse) == Frames([], Parse(s, parse).rest)
    decreases |s|
  {
    hide FrameEnd, Emit, Parse, SkipBlank, MarkerOf;
    var t := s[SkipBlank(s)..];
    if FrameEnd(t).Some? {
      ParseStep(s, t, FrameEnd(t).value, parse);
      ParseTailAgain(t[FrameEnd(t).value..], parse);
    } else {
      ParseStops(s, parse);
      SkipBlankIs(t, 0);
      ParseStops(t, parse);
    }
  }

  /** However a text is cut into chunks, streaming it gives what one call on the whole gives. */
  lemma {:induction false} FeedIsParse(chunks: seq<string>, tail: string, parse: string -> Option<Value>)
    requires Parse(tail, parse) == Frames([], tail)
    ensures Feed(chunks, tail, parse) == Parse(tail + Concat(chunks), parse)
    decreases |chunks|
  {
    hide Parse;
    if chunks == [] {
      assert tail + Concat(chunks) == tail;
    } else {
      var now := Parse(tail + chunks[0], parse);
      ParseTailAgain(tail + chunks[0], parse);
      FeedIsParse(chunks[1..], now.rest, parse);
      ParseTwoPieces(tail + chunks[0], Concat(chunks[1..]), parse);
      Associative(tail, chunks[0], Concat(chunks[1..]));
    }
  }

  // ---------------------------------------------------------------- round trip

  /** A frame as it is written: whitespace before it, a body, whitespace counted with it. */
  datatype Frame = Frame(gap: string, body: string, trail: string)

  predicate Writable(f: Frame) {
    && Blank(f.gap) && Blank(f.trail)
    && f.body != "" && !IsWhitespace(f.body[0]) && !IsWhitespace(f.body[|f.body| - 1])
    && Units("\n" + f.body + f.trail) < USIZE_LIMIT
  }

  predicate AllWritable(fs: seq<Frame>) {
    forall i | 0 <= i < |fs| :: Writable(fs[i])
  }

  function Digit(d: nat): (c: char)
    requires d < 10
    ensures IsDigit(c) && DigitValue(c) == d
  {
    ('0' as int + d) as char
  }

  function Decimal(n: nat): (s: string)
    ensures s != "" && AllDigits(s) && Number(s) == n
  {
    if n < 10 then
      assert [Digit(n)][..0] == "";
      [Digit(n)]
    else
      var s := Decimal(n / 10) + [Digit(n % 10)];
      assert s[..|s| - 1] == Decimal(n / 10);
      s
  }

  function Write(f: Frame): string {
    var counted := "\n" + f.body + f.trail;
    f.gap + (Decimal(Units(counted)) + counted)
  }

  function WriteAll(fs: seq<Frame>): string {
    if fs == [] then "" else Write(fs[0]) + WriteAll(fs[1..])
  }

  function EmitAll(fs: seq<Frame>, parse: string -> Option<Value>): seq<Value> {
    if fs == [] then [] else EmitBody(fs[0].body, parse) + EmitAll(fs[1..], parse)
  }

  lemma {:induction false} TrimEndDropsBlank(body: string, trail: string)
    requires body != "" && !IsWhitespace(body[|body| - 1]) && Blank(trail)
    ensures TrimEnd(body + trail) == body
  {
    if trail == "" {
      assert body + trail == body;
    } else {
      TrimEndDropsBlank(body, trail[..|trail| - 1]);
      assert (body + trail)[..|body + trail| - 1] == body + trail[..|trail| - 1];
    }
  }

  lemma {:induction false} TrimmedBody(f: Frame)
    requires Writable(f)
    ensures Trim("\n" + f.body + f.trail) == f.body
  {
    hide SkipBlank, TrimEnd, Units;
    var s := "\n" + f.body + f.trail;
    assert s[..1] == "\n";
    SkipBlankIs(s, 1);
    assert s[1..] == f.body + f.trail;
    TrimEndDropsBlank(f.body, f.trail);
  }

  lemma {:induction false} WrittenParts(f: Frame, later: string)
    ensures var counted := "\n" + f.body + f.trail;
            var digits := Decimal(Units(counted));
            && Write(f) + later == f.gap + (digits + counted + later)
            && (Write(f) + later)[..|f.gap|] == f.gap
            && (Write(f) + later)[|f.gap|..] == digits + counted + later
  {
    hide Decimal, Units;
    var counted := "\n" + f.body + f.trail;
    var digits := Decimal(Units(counted));
    assert Write(f) + later == f.gap + (digits + counted + later);
  }

  lemma {:induction false} ThreeParts(a: string, b: string, c: string)
    ensures var s := a + b + c;
            && s[..|a|] == a && s[|a|..] == b + c
            && s[|a|..|s| - |c|] == b && s[|s| - |c|..] == c
  {}

  lemma {:induction false} WrittenFrame(f: Frame, later: string)
    requires Writable(f)
    ensures var s := Write(f) + later;
            var t := s[|f.gap|..];
            var digits := Decimal(Units("\n" + f.body + f.trail));
            && SkipBlank(s) == |f.gap|
            && MarkerOf(t) == Some(Marker(|digits|, Units("\n" + f.body + f.trail)))
            && FrameEnd(t) == Some(|t| - |later|)
            && t[|digits|..|t| - |later|] == "\n" + f.body + f.trail
            && t[|t| - |later|..] == later
  {
    hide SkipBlank, Decimal, Fit, Units, DigitRun, Number, Blank, Write;
    var counted := "\n" + f.body + f.trail;
    var digits := Decimal(Units(counted));
    var s := Write(f) + later;
    WrittenParts(f, later);
    var t := s[|f.gap|..];
    assert s[|f.gap|] == digits[0];
    SkipBlankIs(s, |f.gap|);
    ThreeParts(digits, counted, later);
    assert t[|digits|] == '\n';
    DigitRunIs(t, |digits|);
    FitWritten(counted, later);
  }

  lemma {:induction false} FitWritten(counted: string, later: string)
    ensures Fit(counted + later, Units(counted)) == |counted| && (counted + later)[..|counted|] == counted
  {
    hide Fit, Units;
    if |counted| < |counted + later| { UnitsStep(counted + later, |counted|); }
    FitIsUnique(counted + later, Units(counted), |counted|);
  }

  /** Parsing what was written gives back every body's values, in order, and leaves no tail. */
  lemma {:induction false} ParseInvertsWrite(fs: seq<Frame>, blank: string, parse: string -> Option<Value>)
    requires AllWritable(fs)
    requires Blank(blank)
    ensures Parse(WriteAll(fs) + blank, parse) == Frames(EmitAll(fs, parse), "")
  {
    hide Parse, Write, Writable, EmitBody;
    if fs == [] {
      assert WriteAll(fs) + blank == blank;
      ParseBlank(blank, parse);
    } else {
      var later := WriteAll(fs[1..]) + blank;
      Associative(Write(fs[0]), WriteAll(fs[1..]), blank);
      ParseWritten(fs[0], later, parse);
      ParseInvertsWrite(fs[1..], blank, parse);
    }
  }

  lemma {:induction false} ParseBlank(blank: string, parse: string -> Option<Value>)
    requires Blank(blank)
    ensures Parse(blank, parse) == Frames([], "")
  {
    hide Parse, SkipBlank;
    assert blank[..|blank|] == blank;
    SkipBlankIs(blank, |blank|);
    NoMarkerInNothing();
    ParseStops(blank, parse);
  }

  /** One written frame yields its body's values, and parsing goes on behind it. */
  lemma {:induction false} ParseWritten(f: Frame, later: string, parse: string -> Option<Value>)
    requires Writable(f)
    ensures var tail := Parse(later, parse);
            Parse(Write(f) + later, parse) == Frames(EmitBody(f.body, parse) + tail.values, tail.rest)
  {
    hide Parse, Write, FrameEnd, MarkerOf, SkipBlank, Writable, Trim, EmitBody;
    var s := Write(f) + later;
    WrittenFrame(f, later);
    TrimmedBody(f);
    var t := s[|f.gap|..];
    ParseStep(s, t, |t| - |later|, parse);
    assert f.body != "" by { WritableBody(f); }
  }

  lemma {:induction false} WritableBody(f: Frame)
    requires Writable(f)
    ensures f.body != ""
  {}

  // ---------------------------------------------------------------- whole responses

  const SENTINEL := ")]}'"

  function ExtractJson(text: string, parse: string -> Option<Value>): seq<Value> {
    var content := if SENTINEL <= text then text[|SENTINEL|..] else text;
    var trimmed := content[SkipBlank(content)..];
    var frames := Parse(trimmed, parse).values;
    if frames != [] then frames else EmitBody(trimmed, parse)
  }

  /** A guarded response with at least one value yields exactly the values of its frames. */
  lemma {:induction false} ExtractJsonOfResponse(fs: seq<Frame>, blank: string, parse: string -> Option<Value>)
    requires AllWritable(fs)
    requires Blank(blank) && EmitAll(fs, parse) != []
    ensures ExtractJson(SENTINEL + WriteAll(fs) + blank, parse) == EmitAll(fs, parse)
  {
    hide Parse, WriteAll, SkipBlank, EmitAll, Writable, EmitBody;
    var content := WriteAll(fs) + blank;
    var trimmed := content[SkipBlank(content)..];
    var text := SENTINEL + WriteAll(fs) + blank;
    assert text[|SENTINEL|..] == content && SENTINEL <= text;
    SkipBlankIs(trimmed, 0);
    ParseSkips(content, trimmed, parse);
    ParseInvertsWrite(fs, blank, parse);
  }
}
