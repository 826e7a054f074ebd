/**
 The hand-written protobuf codec of the Cursor provider: varints, tagged fields, the decoder.
 Words are unsigned 64-bit.
 */
module Proto {
  import opened Prelude

  const TWO_32 := 0x1_0000_0000
  const TWO_64 := 0x1_0000_0000_0000_0000

  // Masks and shifts by 7 and 3 bits are written as the quotients and remainders they compute.
  // Arithmetic is overflow-checked: a shift of 64 or more, and a position beyond the address
  // space, abort the call (`Panicked`).

  type U32 = n: int | 0 <= n < TWO_32
  type U64 = n: int | 0 <= n < TWO_64
  /** An IEEE double as its eight little-endian bytes. */
  type Bits64 = s: seq<Byte> | |s| == 8 witness [0, 0, 0, 0, 0, 0, 0, 0]

  function Pow2(n: nat): (p: nat)
    ensures p > 0
  {
    if n == 0 then 1 else 2 * Pow2(n - 1)
  }

  // ---------------------------------------------------------------- varints

  function VarintBytes(v: nat): (r: seq<Byte>)
    ensures |r| > 0
  {
    if v <= 0x7F then [v] else [v % 128 + 128] + VarintBytes(v / 128)
  }

  method Varint(v: U64) returns (out: seq<Byte>)
    ensures out == VarintBytes(v)
    ensures |out| <= 10
  {
    hide VarintBytes, Pow2;
    out := [];
    var rest: nat := v;
    assert [] + VarintBytes(v) == VarintBytes(v);
    while rest > 0x7F
      invariant out + VarintBytes(rest) == VarintBytes(v)
    {
      VarintFirst(rest);
      Associative(out, [rest % 128 + 128], VarintBytes(rest / 128));
      out := out + [rest % 128 + 128];
      rest := rest / 128;
    }
    VarintFirst(rest);
    out := out + [rest];
    Pow2At64();
    Pow2Monotone(64, 70);
    VarintSize(v, 10);
  }

  lemma {:induction false} Pow2Step(n: nat)
    ensures Pow2(n + 7) == 128 * Pow2(n)
  {
    assert Pow2(n + 7) == 2 * Pow2(n + 6) == 4 * Pow2(n + 5) == 8 * Pow2(n + 4);
    assert Pow2(n + 4) == 2 * Pow2(n + 3) == 4 * Pow2(n + 2) == 8 * Pow2(n + 1);
  }

  lemma {:induction false} VarintSize(v: nat, k: nat)
    requires k > 0 && v < Pow2(7 * k)
    ensures |VarintBytes(v)| <= k
  {
    if v > 0x7F {
      assert k > 1 by { if k == 1 { Pow2Step(0); } }
      Pow2Step(7 * (k - 1));
      VarintSize(v / 128, k - 1);
    }
  }

  /** `Cut`: the bytes ran out first. `Overflow`: an eleventh byte was needed. */
  datatype VarintRead = Cut | Read(value: U64, size: nat) | Overflow

  function ReadFrom(s: seq<Byte>, acc: U64, shift: nat): (r: VarintRead)
    ensures r.Read? ==> 0 < r.size <= |s|
  {
    if s == [] then Cut
    else if shift >= 64 then Overflow
    else
      var v := (acc + s[0] % 128 * Pow2(shift)) % TWO_64;
      if s[0] < 128 then Read(v, 1)
      else
        match ReadFrom(s[1..], v, shift + 7)
        case Read(value, size) => Read(value, size + 1)
        case other => other
  }

  method ReadVarint(data: seq<Byte>, start: nat) returns (r: VarintRead)
    requires start <= |data|
    ensures r == ReadFrom(data[start..], 0, 0)
  {
    var v, shift, pos := 0, 0, start;
    while true
      invariant start <= pos <= |data| && 0 <= v < TWO_64
      invariant ReadFrom(data[start..], 0, 0) ==
                match ReadFrom(data[pos..], v, shift)
                case Read(value, size) => Read(value, size + pos - start)
                case other => other
      decreases |data| - pos
    {
      if pos >= |data| { return Cut; }
      if shift >= 64 { return Overflow; }
      var b := data[pos];
      assert data[pos..][1..] == data[pos + 1..];
      pos := pos + 1;
      v := (v + b % 128 * Pow2(shift)) % TWO_64;
      if b < 128 { return Read(v, pos - start); }
      shift := shift + 7;
    }
  }

  /** A continuation byte adds its low bits at the current shift. */
  lemma {:induction false} ReadOn(v: nat, s: seq<Byte>, acc: U64, shift: nat)
    requires acc + v * Pow2(shift) < TWO_64 && v > 0x7F
    requires s != [] && s[0] == v % 128 + 128
    ensures var low := acc + v % 128 * Pow2(shift);
            && low + v / 128 * Pow2(shift + 7) == acc + v * Pow2(shift)
            && low < TWO_64
            && ReadFrom(s, acc, shift) ==
               match ReadFrom(s[1..], low, shift + 7)
               case Read(value, size) => Read(value, size + 1)
               case other => other
  {
    hide ReadFrom;
    ShiftInRange(v, shift);
    SplitLow(v, shift);
    hide Pow2;
    Product(v / 128, Pow2(shift + 7));
    assert s[0] % 128 == v % 128;
    ReadMore(s, acc, acc + v % 128 * Pow2(shift), shift);
  }

  lemma {:induction false} ReadMore(s: seq<Byte>, acc: U64, low: U64, shift: nat)
    requires s != [] && s[0] >= 128 && shift < 64 && low == acc + s[0] % 128 * Pow2(shift)
    ensures ReadFrom(s, acc, shift) ==
            match ReadFrom(s[1..], low, shift + 7)
            case Read(value, size) => Read(value, size + 1)
            case other => other
  {
    hide Pow2;
    assert low % TWO_64 == low;
  }

  /** Reading undoes writing, whatever follows; a cut varint is never mistaken for a whole one. */
  lemma {:induction false} ReadInvertsVarint(v: nat, rest: seq<Byte>, acc: U64, shift: nat)
    requires acc + v * Pow2(shift) < TWO_64 && (v > 0 || shift < 64)
    ensures ReadFrom(VarintBytes(v) + rest, acc, shift) == Read(acc + v * Pow2(shift), |VarintBytes(v)|)
  {
    hide ReadFrom, Pow2, VarintBytes;
    var s := VarintBytes(v) + rest;
    VarintFirst(v);
    if v > 0x7F {
      var more := VarintBytes(v / 128);
      ReadOn(v, s, acc, shift);
      assert s[1..] == more + rest;
      ReadInvertsVarint(v / 128, rest, acc + v % 128 * Pow2(shift), shift + 7);
    } else {
      ShiftInRange(v, shift);
      ReadLast(v, rest, acc, shift);
    }
  }

  lemma {:induction false} VarintFirst(v: nat)
    ensures VarintBytes(v) == if v <= 0x7F then [v] else [v % 128 + 128] + VarintBytes(v / 128)
  {}

  lemma {:induction false} ReadLast(v: nat, rest: seq<Byte>, acc: U64, shift: nat)
    requires v <= 0x7F && shift < 64 && acc + v * Pow2(shift) < TWO_64
    ensures ReadFrom([v] + rest, acc, shift) == Read(acc + v * Pow2(shift), 1)
  {
    hide Pow2;
    Product(v, Pow2(shift));
    assert ([v] + rest)[0] == v && v % 128 == v;
  }

  lemma {:induction false} CutVarintIsNotRead(v: nat, k: nat, acc: U64, shift: nat)
    requires acc + v * Pow2(shift) < TWO_64 && (v > 0 || shift < 64)
    requires k < |VarintBytes(v)|
    ensures ReadFrom(VarintBytes(v)[..k], acc, shift) == Cut
  {
    hide ReadFrom, Pow2, VarintBytes;
    var s := VarintBytes(v)[..k];
    VarintFirst(v);
    if k == 0 {
      ReadNothing(acc, shift);
    } else {
      ReadOn(v, s, acc, shift);
      assert s[1..] == VarintBytes(v / 128)[..k - 1];
      CutVarintIsNotRead(v / 128, k - 1, acc + v % 128 * Pow2(shift), shift + 7);
    }
  }

  lemma {:induction false} ReadNothing(acc: U64, shift: nat)
    ensures ReadFrom([], acc, shift) == Cut
  {}

  lemma {:induction false} SplitLow(v: nat, shift: nat)
    ensures v % 128 * Pow2(shift) + v / 128 * Pow2(shift + 7) == v * Pow2(shift)
  {
    Pow2Step(shift);
    var p := Pow2(shift);
    assert v == v % 128 + 128 * (v / 128);
    assert v / 128 * (128 * p) == 128 * (v / 128) * p;
    assert v % 128 * p + 128 * (v / 128) * p == (v % 128 + 128 * (v / 128)) * p;
  }

  lemma {:induction false} ShiftInRange(v: nat, shift: nat)
    requires v * Pow2(shift) < TWO_64 && (v > 0 || shift < 64)
    ensures shift < 64
  {
    if shift >= 64 {
      Pow2At64();
      Pow2Monotone(64, shift);
      AtLeastFactor(v, Pow2(shift));
    }
  }

  lemma {:induction false} Product(a: nat, b: nat)
    ensures a * b >= 0
  {}

  lemma {:induction false} AtLeastFactor(a: nat, b: nat)
    requires a > 0
    ensures a * b >= b
  {}

  lemma {:induction false} Pow2AtZero()
    ensures Pow2(0) == 1
  {}

  lemma {:induction false} Pow2At35()
    ensures Pow2(35) == 0x8_0000_0000
  {
    hide Pow2;
    Pow2AtZero();
    Pow2Step(0); Pow2Step(7); Pow2Step(14); Pow2Step(21); Pow2Step(28);
  }

  lemma {:induction false} Pow2At64()
    ensures Pow2(64) == TWO_64
  {
    hide Pow2;
    Pow2At35();
    Pow2Step(35); Pow2Step(42); Pow2Step(49); Pow2Step(56);
    Pow2Double(63);
  }

  lemma {:induction false} Pow2Double(n: nat)
    ensures Pow2(n + 1) == 2 * Pow2(n)
  {}

  lemma {:induction false} Pow2Monotone(m: nat, n: nat)
    requires m <= n
    ensures Pow2(m) <= Pow2(n)
  {
    if m < n { Pow2Monotone(m, n - 1); }
  }

  // ---------------------------------------------------------------- fields

  datatype WireField =
    | VarintField(number: U32, value: U64)
    | DoubleField(number: U32, bits: Bits64)
    | BytesField(number: U32, bytes: seq<Byte>)

  predicate Addressable(f: WireField) {
    f.BytesField? ==> |f.bytes| < TWO_64
  }

  function WireType(f: WireField): (wt: nat)
    ensures wt < 8
  {
    match f case VarintField(_, _) => 0 case DoubleField(_, _) => 1 case BytesField(_, _) => 2
  }

  function Encode(f: WireField): (r: seq<Byte>)
    ensures |r| > 0
    ensures f.BytesField? ==> |r| > |f.bytes|
  {
    VarintBytes(f.number * 8 + WireType(f)) +
    match f
    case VarintField(_, v) => VarintBytes(v)
    case DoubleField(_, bits) => bits
    case BytesField(_, b) => VarintBytes(|b|) + b
  }

  function EncodeAll(fs: seq<WireField>): seq<Byte> {
    if fs == [] then [] else Encode(fs[0]) + EncodeAll(fs[1..])
  }

  lemma {:induction false} EncodeAllAppend(a: seq<WireField>, b: seq<WireField>)
    ensures EncodeAll(a + b) == EncodeAll(a) + EncodeAll(b)
  {
    if a == [] {
      assert a + b == b;
    } else {
      EncodeAllAppend(a[1..], b);
      assert (a + b)[0] == a[0] && (a + b)[1..] == a[1..] + b;
      Associative(Encode(a[0]), EncodeAll(a[1..]), EncodeAll(b));
    }
  }

  method FieldVarint(number: U32, v: U64) returns (out: seq<Byte>)
    ensures out == Encode(VarintField(number, v))
  {
    out := Varint(number * 8);
    var value := Varint(v);
    out := out + value;
  }

  method FieldBytes(number: U32, b: seq<Byte>) returns (out: seq<Byte>)
    requires |b| < TWO_64
    ensures out == Encode(BytesField(number, b))
  {
    out := Varint(number * 8 + 2);
    var size := Varint(|b|);
    out := out + size + b;
  }

  method FieldDouble(number: U32, bits: Bits64) returns (out: seq<Byte>)
    ensures out == Encode(DoubleField(number, bits))
  {
    out := Varint(number * 8 + 1);
    out := out + bits;
  }

  // ---------------------------------------------------------------- field decoder

  datatype Field = Scalar(value: U64) | Bytes(bytes: seq<Byte>)
  datatype Entry = Entry(number: U32, field: Field)
  datatype Outcome<+T> = Done(value: T) | Panicked
  /** What the decoder makes of the bytes at one position. */
  datatype Item = Item(entry: Entry, size: nat) | Stop | Abort

  /** The field at the start of `s`, whose first byte sits at offset `pos` of the message. */
  function DecodeOne(s: seq<Byte>, pos: nat): (r: Item)
    ensures r.Item? ==> 0 < r.size <= |s|
    ensures r.Item? && r.entry.field.Bytes? ==> |r.entry.field.bytes| < |s|
  {
    match ReadFrom(s, 0, 0)
    case Cut => Stop
    case Overflow => Abort
    case Read(tag, n) => DecodeBody(s, pos, tag, n)
  }

  function DecodeBody(s: seq<Byte>, pos: nat, tag: U64, n: nat): (r: Item)
    requires 0 < n <= |s|
    ensures r.Item? ==> 0 < r.size <= |s|
    ensures r.Item? && r.entry.field.Bytes? ==> |r.entry.field.bytes| < |s|
  {
    var number: U32 := tag / 8 % TWO_32;
    var body := s[n..];
    match tag % 8
    case 0 => (
      match ReadFrom(body, 0, 0)
      case Cut => Stop
      case Overflow => Abort
      case Read(v, k) => Item(Entry(number, Scalar(v)), n + k))
    case 1 => if |body| < 8 then Stop else Item(Entry(number, Bytes(body[..8])), n + 8)
    case 2 => (
      match ReadFrom(body, 0, 0)
      case Cut => Stop
      case Overflow => Abort
      case Read(len, k) =>
        if pos + n + k + len >= TWO_64 then Abort
        else if k + len > |body| then Stop
        else Item(Entry(number, Bytes(body[k..k + len])), n + k + len))
    case 5 => if |body| < 4 then Stop else Item(Entry(number, Bytes(body[..4])), n + 4)
    case _ => Stop
  }

  /** The fields of a message in wire order, up to the first position that does not decode. */
  function Decode(s: seq<Byte>, pos: nat): (r: Outcome<seq<Entry>>)
    decreases |s|
  {
    if s == [] then Done([])
    else
      match DecodeOne(s, pos)
      case Stop => Done([])
      case Abort => Panicked
      case Item(e, n) => Prepend([e], Decode(s[n..], pos + n))
  }

  lemma {:induction false} DecodeStep(s: seq<Byte>, pos: nat, e: Entry, n: nat, rest: seq<Byte>)
    requires s != [] && DecodeOne(s, pos) == Item(e, n) && rest == s[n..]
    ensures Decode(s, pos) == Prepend([e], Decode(rest, pos + n))
  {
    hide DecodeOne, Prepend;
  }

  function Prepend(es: seq<Entry>, r: Outcome<seq<Entry>>): Outcome<seq<Entry>> {
    match r case Panicked => Panicked case Done(rest) => Done(es + rest)
  }

  lemma {:induction false} DecodeEnds(s: seq<Byte>, pos: nat, es: seq<Entry>)
    requires s == [] || !DecodeOne(s, pos).Item?
    ensures Prepend(es, Decode(s, pos)) == if s != [] && DecodeOne(s, pos).Abort? then Panicked else Done(es)
  {
    assert es + [] == es;
  }

  lemma {:induction false} PrependNothing(r: Outcome<seq<Entry>>)
    ensures Prepend([], r) == r
  {
    if r.Done? { assert [] + r.value == r.value; }
  }

  lemma {:induction false} PrependTwice(a: seq<Entry>, e: Entry, r: Outcome<seq<Entry>>)
    ensures Prepend(a, Prepend([e], r)) == Prepend(a + [e], r)
  {
    if r.Done? { Associative(a, [e], r.value); }
  }

  /** The values of one field number, in wire order. */
  function ValuesOf(es: seq<Entry>, number: U32): seq<Field> {
    if es == [] then []
    else (if es[0].number == number then [es[0].field] else []) + ValuesOf(es[1..], number)
  }

  lemma {:induction false} NoValues(number: U32)
    ensures ValuesOf([], number) == []
  {}

  lemma {:induction false} FirstValue(e: Entry, rest: seq<Entry>, number: U32)
    ensures ValuesOf([e] + rest, number) == (if e.number == number then [e.field] else []) + ValuesOf(rest, number)
  {
    assert ([e] + rest)[1..] == rest;
  }

  lemma {:induction false} ValuesOfAppend(a: seq<Entry>, b: seq<Entry>, number: U32)
    ensures ValuesOf(a + b, number) == ValuesOf(a, number) + ValuesOf(b, number)
  {
    hide ValuesOf;
    if a == [] {
      assert a + b == b;
      NoValues(number);
      assert [] + ValuesOf(b, number) == ValuesOf(b, number);
    } else {
      ValuesOfAppend(a[1..], b, number);
      FirstValue(a[0], a[1..], number);
      FirstValue(a[0], a[1..] + b, number);
      assert [a[0]] + a[1..] == a && [a[0]] + (a[1..] + b) == a + b;
      Associative(
        if a[0].number == number then [a[0].field] else [], ValuesOf(a[1..], number), ValuesOf(b, number));
    }
  }

  /** `m` lists exactly the fields of `es`: by number, in wire order, no empty lists. */
  ghost predicate Groups(m: map<U32, seq<Field>>, es: seq<Entry>) {
    forall number: U32 ::
      && (number in m <==> ValuesOf(es, number) != [])
      && (number in m ==> m[number] == ValuesOf(es, number))
  }

  lemma {:induction false} GroupsNothing()
    ensures Groups(map[], [])
  {}

  lemma {:induction false} GroupsStep(m: map<U32, seq<Field>>, es: seq<Entry>, e: Entry)
    requires Groups(m, es)
    ensures Groups(m[e.number := (if e.number in m then m[e.number] else []) + [e.field]], es + [e])
  {
    forall number: U32
      ensures ValuesOf(es + [e], number) == ValuesOf(es, number) + if e.number == number then [e.field] else []
    {
      ValuesOfAppend(es, [e], number);
    }
  }

  /** One round of the decoding loop: a tag, and the content its wire type announces. */
  method ReadField(data: seq<Byte>, start: nat) returns (r: Item)
    requires start <= |data|
    ensures r == DecodeOne(data[start..], start)
  {
    hide ReadFrom;
    var pos := start;
    var head := ReadVarint(data, pos);
    if head.Overflow? { return Abort; }
    if head.Cut? { return Stop; }
    pos := pos + head.size;
    TailOfTail(data, start, head.size);
    var number: U32 := head.value / 8 % TWO_32;
    var wireType := head.value % 8;
    if wireType == 0 {
      var value := ReadVarint(data, pos);
      if value.Overflow? { return Abort; }
      if value.Cut? { return Stop; }
      return Item(Entry(number, Scalar(value.value)), pos + value.size - start);
    } else if wireType == 1 {
      if pos + 8 > |data| { return Stop; }
      SliceOfTail(data, pos, 0, 8);
      return Item(Entry(number, Bytes(data[pos..pos + 8])), pos + 8 - start);
    } else if wireType == 2 {
      var size := ReadVarint(data, pos);
      if size.Overflow? { return Abort; }
      if size.Cut? { return Stop; }
      var end := pos + size.size + size.value;
      if end >= TWO_64 { return Abort; }
      if end > |data| { return Stop; }
      SliceOfTail(data, pos, size.size, size.size + size.value);
      return Item(Entry(number, Bytes(data[pos + size.size..end])), end - start);
    } else if wireType == 5 {
      if pos + 4 > |data| { return Stop; }
      SliceOfTail(data, pos, 0, 4);
      return Item(Entry(number, Bytes(data[pos..pos + 4])), pos + 4 - start);
    } else {
      return Stop;
    }
  }

  method DecodeFields(data: seq<Byte>) returns (r: Outcome<map<U32, seq<Field>>>)
    ensures IsGrouped(data, r)
  {
    hide Decode, DecodeOne, Prepend, Groups, ValuesOf;
    var out: map<U32, seq<Field>> := map[];
    var pos := 0;
    ghost var seen := [];
    assert data[0..] == data;
    PrependNothing(Decode(data, 0));
    GroupsNothing();
    while pos < |data|
      invariant pos <= |data|
      invariant Groups(out, seen)
      invariant Decode(data, 0) == Prepend(seen, Decode(data[pos..], pos))
    {
      var item := ReadField(data, pos);
      match item {
        case Abort =>
          DecodeEnds(data[pos..], pos, seen);
          return Panicked;
        case Stop =>
          DecodeEnds(data[pos..], pos, seen);
          return Done(out);
        case Item(e, size) =>
          TailOfTail(data, pos, size);
          DecodeStep(data[pos..], pos, e, size, data[pos + size..]);
          PrependTwice(seen, e, Decode(data[pos + size..], pos + size));
          GroupsStep(out, seen, e);
          out := out[e.number := (if e.number in out then out[e.number] else []) + [e.field]];
          seen := seen + [e];
          pos := pos + size;
      }
    }
    DecodeEnds(data[pos..], pos, seen);
    return Done(out);
  }

  /** What `DecodeFields` returns: the wire-order fields grouped by number, or the abort of the same bytes. */
  ghost predicate IsGrouped(data: seq<Byte>, r: Outcome<map<U32, seq<Field>>>) {
    match Decode(data, 0)
    case Panicked => r.Panicked?
    case Done(es) => r.Done? && Groups(r.value, es)
  }

  // ---------------------------------------------------------------- round trip and truncation

  function ToEntry(f: WireField): Entry {
    Entry(f.number,
          match f
          case VarintField(_, v) => Scalar(v)
          case DoubleField(_, bits) => Bytes(bits)
          case BytesField(_, b) => Bytes(b))
  }

  function Entries(fs: seq<WireField>): (r: seq<Entry>)
    ensures |r| == |fs|
  {
    seq(|fs|, i requires 0 <= i < |fs| => ToEntry(fs[i]))
  }

  lemma {:induction false} ReadWritten(v: U64, rest: seq<Byte>)
    ensures ReadFrom(VarintBytes(v) + rest, 0, 0) == Read(v, |VarintBytes(v)|)
  {
    ReadInvertsVarint(v, rest, 0, 0);
  }

  function Tag(f: WireField): (tag: U64)
    ensures tag / 8 % TWO_32 == f.number && tag % 8 == WireType(f)
  {
    f.number * 8 + WireType(f)
  }

  function Payload(f: WireField): seq<Byte> {
    match f
    case VarintField(_, v) => VarintBytes(v)
    case DoubleField(_, bits) => bits
    case BytesField(_, b) => VarintBytes(|b|) + b
  }

  lemma {:induction false} TagWritten(f: WireField, body: seq<Byte>, pos: nat)
    ensures var s := VarintBytes(Tag(f)) + body;
            DecodeOne(s, pos) == DecodeBody(s, pos, Tag(f), |VarintBytes(Tag(f))|)
  {
    ReadWritten(Tag(f), body);
  }

  lemma {:induction false} DecodeOneWritten(f: WireField, rest: seq<Byte>, pos: nat)
    requires Addressable(f) && pos + |Encode(f)| < TWO_64
    ensures DecodeOne(Encode(f) + rest, pos) == Item(ToEntry(f), |Encode(f)|)
  {
    hide ReadFrom, VarintBytes, DecodeOne;
    var head := VarintBytes(Tag(f));
    var body := Payload(f) + rest;
    var s := head + body;
    assert Encode(f) == head + Payload(f);
    Associative(head, Payload(f), rest);
    TagWritten(f, body, pos);
    assert s[|head|..] == body;
    match f {
      case VarintField(_, v) =>
        ReadWritten(v, rest);
      case DoubleField(_, bits) =>
        assert body[..8] == bits;
      case BytesField(_, b) =>
        var size := VarintBytes(|b|);
        Associative(size, b, rest);
        ReadWritten(|b|, b + rest);
        assert body[|size|..|size| + |b|] == b;
    }
  }

  lemma {:induction false} DecodeOneCut(f: WireField, k: nat, pos: nat)
    requires Addressable(f) && pos + |Encode(f)| < TWO_64
    requires 0 < k < |Encode(f)|
    ensures DecodeOne(Encode(f)[..k], pos) == Stop
  {
    var head := VarintBytes(Tag(f));
    var s := Encode(f)[..k];
    assert Encode(f) == head + Payload(f);
    if k < |head| {
      assert s == head[..k];
      CutVarintIsNotRead(Tag(f), k, 0, 0);
    } else {
      var body := Payload(f)[..k - |head|];
      CutAfter(head, Payload(f), k);
      TagWritten(f, body, pos);
      CutPayload(f, k - |head|, s, pos);
    }
  }

  lemma {:induction false} CutPayload(f: WireField, k: nat, s: seq<Byte>, pos: nat)
    requires Addressable(f) && k < |Payload(f)|
    requires pos + |VarintBytes(Tag(f))| + |Payload(f)| < TWO_64
    requires |s| >= |VarintBytes(Tag(f))| && s[|VarintBytes(Tag(f))|..] == Payload(f)[..k]
    ensures DecodeBody(s, pos, Tag(f), |VarintBytes(Tag(f))|) == Stop
  {
    match f {
      case VarintField(_, v) =>
        CutVarintIsNotRead(v, k, 0, 0);
      case DoubleField(_, _) =>
      case BytesField(_, b) =>
        CutBytesBody(b, k);
        assert Payload(f) == VarintBytes(|b|) + b;
    }
  }

  lemma {:induction false} CutBytesBody(b: seq<Byte>, k: nat)
    requires |b| < TWO_64 && k < |VarintBytes(|b|) + b|
    ensures var r := ReadFrom((VarintBytes(|b|) + b)[..k], 0, 0);
            r.Read? ==> r.size == |VarintBytes(|b|)|
    ensures var r := ReadFrom((VarintBytes(|b|) + b)[..k], 0, 0);
            r == Cut || (r.Read? && r.value == |b| && r.size + |b| > k)
  {
    var size := VarintBytes(|b|);
    if k < |size| {
      assert (size + b)[..k] == size[..k];
      CutVarintIsNotRead(|b|, k, 0, 0);
    } else {
      assert (size + b)[..k] == size + b[..k - |size|];
      ReadWritten(|b|, b[..k - |size|]);
    }
  }

  /** How many leading fields are complete within the first `k` bytes. */
  function Complete(fs: seq<WireField>, k: nat): (n: nat)
    ensures n <= |fs|
  {
    if fs == [] || |Encode(fs[0])| > k then 0
    else Complete(fs[1..], k - |Encode(fs[0])|) + 1
  }

  /** Those fields fit into `k` bytes, and one more does not. */
  lemma {:induction false} CompleteIsMost(fs: seq<WireField>, k: nat)
    ensures var n := Complete(fs, k);
            && |EncodeAll(fs[..n])| <= k
            && (n < |fs| ==> |EncodeAll(fs[..n + 1])| > k)
  {
    hide Encode, EncodeAll;
    EncodeNothing();
    if fs != [] {
      EncodePrefix(fs, 0);
      if |Encode(fs[0])| <= k {
        var n := Complete(fs[1..], k - |Encode(fs[0])|);
        CompleteIsMost(fs[1..], k - |Encode(fs[0])|);
        EncodePrefix(fs, n);
        if n + 1 < |fs| { EncodePrefix(fs, n + 1); }
      }
    }
  }

  lemma {:induction false} EncodeNothing()
    ensures EncodeAll([]) == []
  {}

  lemma {:induction false} EncodePrefix(fs: seq<WireField>, n: nat)
    requires n < |fs|
    ensures EncodeAll(fs[..n + 1]) == Encode(fs[0]) + EncodeAll(fs[1..][..n])
  {
    hide Encode;
    assert fs[..n + 1][1..] == fs[1..][..n];
  }

  lemma {:induction false} CutWithin<T>(a: seq<T>, b: seq<T>, k: nat)
    requires k <= |a|
    ensures (a + b)[..k] == a[..k]
  {}

  lemma {:induction false} CutAfter<T>(a: seq<T>, b: seq<T>, k: nat)
    requires |a| <= k <= |a + b|
    ensures (a + b)[..k] == a + b[..k - |a|]
    ensures (a + b)[..k][|a|..] == b[..k - |a|]
  {}

  lemma {:induction false} DecodeFirst(f: WireField, rest: seq<Byte>, pos: nat)
    requires Addressable(f) && pos + |Encode(f)| < TWO_64
    ensures Decode(Encode(f) + rest, pos) == Prepend([ToEntry(f)], Decode(rest, pos + |Encode(f)|))
  {
    hide DecodeOne, Encode, Decode;
    DecodeOneWritten(f, rest, pos);
    assert (Encode(f) + rest)[|Encode(f)|..] == rest;
    DecodeStep(Encode(f) + rest, pos, ToEntry(f), |Encode(f)|, rest);
  }

  lemma {:induction false} DecodeCutFirst(f: WireField, k: nat, pos: nat)
    requires Addressable(f) && pos + |Encode(f)| < TWO_64
    requires k < |Encode(f)|
    ensures Decode(Encode(f)[..k], pos) == Done([])
  {
    if k > 0 { DecodeOneCut(f, k, pos); }
  }

  lemma {:induction false} EntriesFirst(f: WireField, fs: seq<WireField>)
    ensures Entries([f] + fs) == [ToEntry(f)] + Entries(fs)
  {}

  /** Cutting an encoded message anywhere loses exactly the fields that are not complete. */
  lemma {:induction false} DecodeCut(fs: seq<WireField>, k: nat, pos: nat)
    requires forall f <- fs :: Addressable(f)
    requires k <= |EncodeAll(fs)| && pos + |EncodeAll(fs)| < TWO_64
    ensures Decode(EncodeAll(fs)[..k], pos) == Done(Entries(fs[..Complete(fs, k)]))
  {
    hide DecodeOne, Encode, EncodeAll, Decode;
    if fs == [] {
      EncodeNothing();
      assert EncodeAll(fs)[..k] == [] && Entries(fs[..0]) == [];
      DecodeNothing(pos);
    } else {
      var first, others := Encode(fs[0]), EncodeAll(fs[1..]);
      EncodeFirst(fs);
      if k < |first| {
        CutWithin(first, others, k);
        DecodeCutFirst(fs[0], k, pos);
        assert Entries(fs[..0]) == [];
      } else {
        var n := Complete(fs[1..], k - |first|);
        CutAfter(first, others, k);
        DecodeCut(fs[1..], k - |first|, pos + |first|);
        DecodeFirst(fs[0], others[..k - |first|], pos);
        EntriesFirst(fs[0], fs[1..][..n]);
        assert fs[..n + 1] == [fs[0]] + fs[1..][..n];
      }
    }
  }

  lemma {:induction false} DecodeNothing(pos: nat)
    ensures Decode([], pos) == Done([])
  {}

  lemma {:induction false} EncodeFirst(fs: seq<WireField>)
    requires fs != []
    ensures EncodeAll(fs) == Encode(fs[0]) + EncodeAll(fs[1..])
  {}

  lemma {:induction false} AllComplete(fs: seq<WireField>)
    ensures Complete(fs, |EncodeAll(fs)|) == |fs|
  {
    if fs != [] { AllComplete(fs[1..]); }
  }

  /** A whole message decodes to its fields, in order. */
  lemma {:induction false} DecodeWritten(fs: seq<WireField>)
    requires forall f <- fs :: Addressable(f)
    requires |EncodeAll(fs)| < TWO_64
    ensures Decode(EncodeAll(fs), 0) == Done(Entries(fs))
  {
    var s := EncodeAll(fs);
    AllComplete(fs);
    DecodeCut(fs, |s|, 0);
    assert s[..|s|] == s && fs[..|fs|] == fs;
  }

  /** Two encoded messages, one behind the other, decode to one with the fields of both, in order. */
  lemma {:induction false} MessagesMerge(a: seq<WireField>, b: seq<WireField>, number: U32)
    requires forall f <- a :: Addressable(f)
    requires forall f <- b :: Addressable(f)
    requires |EncodeAll(a)| + |EncodeAll(b)| < TWO_64
    ensures Decode(EncodeAll(a) + EncodeAll(b), 0) == Done(Entries(a) + Entries(b))
    ensures ValuesOf(Entries(a) + Entries(b), number) == ValuesOf(Entries(a), number) + ValuesOf(Entries(b), number)
  {
    hide Decode, EncodeAll, ValuesOf, ToEntry;
    EncodeAllAppend(a, b);
    DecodeWritten(a + b);
    assert Entries(a + b) == Entries(a) + Entries(b);
    ValuesOfAppend(Entries(a), Entries(b), number);
  }
}
