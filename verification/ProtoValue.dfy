/**
 JSON values on the wire as `google.protobuf.Value` messages: the encoder, and a decoder built
 from the field decoder alone that recovers every value.
 */
module ProtoValue {
  import opened Prelude
  import opened Proto

  /** A JSON value: object members in iteration order, numbers as doubles, strings as UTF-8. */
  datatype Json =
    | Null
    | Bool(b: bool)
    | Number(bits: Bits64)
    | Str(utf8: seq<Byte>)
    | Object(members: seq<Member>)
    | Array(items: seq<Json>)
  datatype Member = Member(key: seq<Byte>, value: Json)

  // ---------------------------------------------------------------- encoder

  /** The one field of a `google.protobuf.Value` message. */
  function ValueField(v: Json): WireField
    decreases v
  {
    match v
    case Null => VarintField(1, 0)
    case Bool(b) => VarintField(4, if b then 1 else 0)
    case Number(bits) => DoubleField(2, bits)
    case Str(s) => BytesField(3, s)
    case Object(ms) => BytesField(5, EncodeAll(StructFields(ms)))
    case Array(items) => BytesField(6, EncodeAll(ListFields(items)))
  }

  function StructFields(ms: seq<Member>): (fs: seq<WireField>)
    ensures |fs| == |ms|
    decreases ms
  {
    if ms == [] then [] else [MemberField(ms[0])] + StructFields(ms[1..])
  }

  function MemberField(m: Member): WireField
    decreases m
  {
    BytesField(1, EncodeAll([BytesField(1, m.key), BytesField(2, Encode(ValueField(m.value)))]))
  }

  function ListFields(items: seq<Json>): (fs: seq<WireField>)
    ensures |fs| == |items|
    decreases items
  {
    if items == [] then [] else [BytesField(1, Encode(ValueField(items[0])))] + ListFields(items[1..])
  }

  function EncodeJson(v: Json): seq<Byte> {
    Encode(ValueField(v))
  }

  lemma {:induction false} EncodeOne(f: WireField)
    ensures EncodeAll([f]) == Encode(f)
  {
    assert [f][1..] == [];
  }

  lemma {:induction false} EncodeTwo(f: WireField, g: WireField)
    ensures EncodeAll([f, g]) == Encode(f) + Encode(g)
  {
    assert [f, g][1..] == [g];
    EncodeOne(g);
  }

  method EncodeStruct(ms: seq<Member>) returns (out: seq<Byte>)
    requires |EncodeAll(StructFields(ms))| < TWO_64
    ensures out == EncodeAll(StructFields(ms))
    decreases ms
  {
    out := [];
    for i := 0 to |ms|
      invariant EncodeAll(StructFields(ms)) == out + EncodeAll(StructFields(ms[i..]))
    {
      hide Encode;
      var m := ms[i];
      EncodeTwo(BytesField(1, m.key), BytesField(2, EncodeJson(m.value)));
      MemberFits(m);
      assert ms[i..][1..] == ms[i + 1..];
      var entry := FieldBytes(1, m.key);
      var value := EncodeValue(m.value);
      value := FieldBytes(2, value);
      entry := FieldBytes(1, entry + value);
      Associative(out, entry, EncodeAll(StructFields(ms[i + 1..])));
      out := out + entry;
    }
  }

  lemma {:induction false} MemberFits(m: Member)
    ensures |m.key| < |Encode(MemberField(m))|
    ensures |EncodeJson(m.value)| < |Encode(BytesField(2, EncodeJson(m.value)))|
    ensures |EncodeAll([BytesField(1, m.key), BytesField(2, EncodeJson(m.value))])| < |Encode(MemberField(m))|
    ensures |EncodeJson(m.value)| < |Encode(MemberField(m))|
  {
    EncodeTwo(BytesField(1, m.key), BytesField(2, EncodeJson(m.value)));
  }

  method EncodeList(items: seq<Json>) returns (out: seq<Byte>)
    requires |EncodeAll(ListFields(items))| < TWO_64
    ensures out == EncodeAll(ListFields(items))
    decreases items
  {
    out := [];
    for i := 0 to |items|
      invariant EncodeAll(ListFields(items)) == out + EncodeAll(ListFields(items[i..]))
    {
      hide Encode;
      assert items[i..][1..] == items[i + 1..];
      var item := EncodeValue(items[i]);
      item := FieldBytes(1, item);
      Associative(out, item, EncodeAll(ListFields(items[i + 1..])));
      out := out + item;
    }
  }

  method EncodeValue(v: Json) returns (out: seq<Byte>)
    requires |EncodeJson(v)| < TWO_64
    ensures out == EncodeJson(v)
    decreases v
  {
    match v {
      case Null => out := FieldVarint(1, 0);
      case Bool(b) => out := FieldVarint(4, if b then 1 else 0);
      case Number(bits) => out := FieldDouble(2, bits);
      case Str(s) => out := FieldBytes(3, s);
      case Object(ms) =>
        out := EncodeStruct(ms);
        out := FieldBytes(5, out);
      case Array(items) =>
        out := EncodeList(items);
        out := FieldBytes(6, out);
    }
  }

  // ---------------------------------------------------------------- decoder

  /** The values of one field number of a message, in wire order. */
  function FieldsOf(b: seq<Byte>, number: U32): (r: seq<Field>)
    ensures forall f <- r :: f.Bytes? ==> |f.bytes| < |b|
  {
    match Decode(b, 0)
    case Panicked => []
    case Done(es) =>
      DecodedAreShorter(b, 0);
      ValuesAreEntries(es, number);
      ValuesOf(es, number)
  }

  /** Those values are what a lookup finds in the map that the decoding loop returns. */
  lemma {:induction false} FieldsOfIsLookup(b: seq<Byte>, r: Outcome<map<U32, seq<Field>>>, number: U32)
    requires IsGrouped(b, r)
    ensures FieldsOf(b, number) == if r.Done? && number in r.value then r.value[number] else []
  {}

  lemma {:induction false} DecodedAreShorter(s: seq<Byte>, pos: nat)
    ensures var r := Decode(s, pos);
            r.Done? ==> forall e <- r.value :: e.field.Bytes? ==> |e.field.bytes| < |s|
    decreases |s|
  {
    hide DecodeOne;
    if s != [] {
      match DecodeOne(s, pos) {
        case Item(e, n) => DecodedAreShorter(s[n..], pos + n);
        case _ =>
      }
    }
  }

  lemma {:induction false} ValuesAreEntries(es: seq<Entry>, number: U32)
    ensures forall f <- ValuesOf(es, number) :: Entry(number, f) in es
  {
    if es != [] { ValuesAreEntries(es[1..], number); }
  }

  function DecodeJson(b: seq<Byte>): Option<Json>
    decreases |b|, 0
  {
    if FieldsOf(b, 1) != [] then Some(Null)
    else if FieldsOf(b, 4) != [] then
      match FieldsOf(b, 4)[0] case Scalar(v) => Some(Bool(v != 0)) case Bytes(_) => None
    else if FieldsOf(b, 2) != [] then
      match FieldsOf(b, 2)[0] case Scalar(_) => None case Bytes(x) => if |x| == 8 then Some(Number(x)) else None
    else if FieldsOf(b, 3) != [] then
      match FieldsOf(b, 3)[0] case Scalar(_) => None case Bytes(x) => Some(Str(x))
    else if FieldsOf(b, 5) != [] then
      match FieldsOf(b, 5)[0]
      case Scalar(_) => None
      case Bytes(x) => (
        match DecodeMembers(FieldsOf(x, 1), |x|) case None => None case Some(ms) => Some(Object(ms)))
    else if FieldsOf(b, 6) != [] then
      match FieldsOf(b, 6)[0]
      case Scalar(_) => None
      case Bytes(x) => (
        match DecodeItems(FieldsOf(x, 1), |x|) case None => None case Some(items) => Some(Array(items)))
    else None
  }

  function DecodeMembers(fs: seq<Field>, bound: nat): Option<seq<Member>>
    requires forall f <- fs :: f.Bytes? ==> |f.bytes| < bound
    decreases bound, |fs|
  {
    if fs == [] then Some([])
    else if fs[0].Scalar? then None
    else
      var keys, values := FieldsOf(fs[0].bytes, 1), FieldsOf(fs[0].bytes, 2);
      if keys == [] || values == [] || keys[0].Scalar? || values[0].Scalar? then None
      else
        match (DecodeJson(values[0].bytes), DecodeMembers(fs[1..], bound))
        case (Some(v), Some(rest)) => Some([Member(keys[0].bytes, v)] + rest)
        case _ => None
  }

  function DecodeItems(fs: seq<Field>, bound: nat): Option<seq<Json>>
    requires forall f <- fs :: f.Bytes? ==> |f.bytes| < bound
    decreases bound, |fs|
  {
    if fs == [] then Some([])
    else if fs[0].Scalar? then None
    else
      match (DecodeJson(fs[0].bytes), DecodeItems(fs[1..], bound))
      case (Some(v), Some(rest)) => Some([v] + rest)
      case _ => None
  }

  // ---------------------------------------------------------------- round trip

  lemma {:induction false} FieldsOfWritten(fs: seq<WireField>, number: U32)
    requires |EncodeAll(fs)| < TWO_64
    ensures FieldsOf(EncodeAll(fs), number) == ValuesOf(Entries(fs), number)
  {
    AllAddressable(fs);
    DecodeWritten(fs);
  }

  lemma {:induction false} AllAddressable(fs: seq<WireField>)
    requires |EncodeAll(fs)| < TWO_64
    ensures forall f <- fs :: Addressable(f)
  {
    hide Encode;
    if fs != [] {
      AllAddressable(fs[1..]);
      assert forall f <- fs :: f == fs[0] || f in fs[1..];
    }
  }

  lemma {:induction false} FieldsOfOne(f: WireField, number: U32)
    requires |Encode(f)| < TWO_64
    ensures FieldsOf(Encode(f), number) == if f.number == number then [ToEntry(f).field] else []
  {
    EncodeOne(f);
    FieldsOfWritten([f], number);
    assert Entries([f]) == [ToEntry(f)];
  }

  lemma {:induction false} FieldsOfTwo(f: WireField, g: WireField)
    requires |EncodeAll([f, g])| < TWO_64 && f.number == 1 && g.number == 2
    ensures FieldsOf(EncodeAll([f, g]), 1) == [ToEntry(f).field]
    ensures FieldsOf(EncodeAll([f, g]), 2) == [ToEntry(g).field]
  {
    FieldsOfWritten([f, g], 1);
    FieldsOfWritten([f, g], 2);
    assert Entries([f, g]) == [ToEntry(f)] + [ToEntry(g)];
    ValuesOfAppend([ToEntry(f)], [ToEntry(g)], 1);
    ValuesOfAppend([ToEntry(f)], [ToEntry(g)], 2);
  }

  /** The decoder recovers every JSON value, of any nesting, from its encoding. */
  lemma {:induction false} DecodeInvertsEncode(v: Json)
    requires |EncodeJson(v)| < TWO_64
    ensures DecodeJson(EncodeJson(v)) == Some(v)
    decreases v
  {
    hide Encode, FieldsOf;
    var f := ValueField(v);
    var b := EncodeJson(v);
    assert b == Encode(f);
    FieldsOfOne(f, 1); FieldsOfOne(f, 2); FieldsOfOne(f, 3);
    FieldsOfOne(f, 4); FieldsOfOne(f, 5); FieldsOfOne(f, 6);
    match v {
      case Object(ms) =>
        var x := EncodeAll(StructFields(ms));
        FieldsOfWritten(StructFields(ms), 1);
        MembersInvert(ms, |x|);
      case Array(items) =>
        var x := EncodeAll(ListFields(items));
        FieldsOfWritten(ListFields(items), 1);
        ItemsInvert(items, |x|);
      case _ =>
    }
  }

  lemma {:induction false} MembersInvert(ms: seq<Member>, bound: nat)
    requires |EncodeAll(StructFields(ms))| < TWO_64
    requires forall f <- ValuesOf(Entries(StructFields(ms)), 1) :: f.Bytes? ==> |f.bytes| < bound
    ensures DecodeMembers(ValuesOf(Entries(StructFields(ms)), 1), bound) == Some(ms)
    decreases ms
  {
    hide Encode, FieldsOf, DecodeJson, EncodeAll;
    if ms == [] {
      assert ValuesOf(Entries(StructFields(ms)), 1) == [];
    } else {
      var m := ms[0];
      var key, value := BytesField(1, m.key), BytesField(2, EncodeJson(m.value));
      MemberFits(m);
      EntriesFirst(MemberField(m), StructFields(ms[1..]));
      assert StructFields(ms) == [MemberField(m)] + StructFields(ms[1..]);
      FirstFits(MemberField(m), StructFields(ms[1..]));
      var e := ToEntry(MemberField(m));
      assert Entries(StructFields(ms))[1..] == Entries(StructFields(ms[1..]));
      FieldsOfTwo(key, value);
      var fs := ValuesOf(Entries(StructFields(ms)), 1);
      assert fs == [e.field] + ValuesOf(Entries(StructFields(ms[1..])), 1);
      assert fs[1..] == ValuesOf(Entries(StructFields(ms[1..])), 1);
      DecodeInvertsEncode(m.value);
      MembersInvert(ms[1..], bound);
      assert ms == [m] + ms[1..];
    }
  }

  lemma {:induction false} FirstFits(f: WireField, fs: seq<WireField>)
    ensures |Encode(f)| <= |EncodeAll([f] + fs)| && |EncodeAll(fs)| <= |EncodeAll([f] + fs)|
    ensures f.BytesField? ==> |f.bytes| < |EncodeAll([f] + fs)|
  {
    assert ([f] + fs)[1..] == fs;
  }

  lemma {:induction false} ItemsInvert(items: seq<Json>, bound: nat)
    requires |EncodeAll(ListFields(items))| < TWO_64
    requires forall f <- ValuesOf(Entries(ListFields(items)), 1) :: f.Bytes? ==> |f.bytes| < bound
    ensures DecodeItems(ValuesOf(Entries(ListFields(items)), 1), bound) == Some(items)
    decreases items
  {
    hide Encode, FieldsOf, DecodeJson, EncodeAll;
    if items == [] {
      assert ValuesOf(Entries(ListFields(items)), 1) == [];
    } else {
      var first, rest := BytesField(1, EncodeJson(items[0])), ListFields(items[1..]);
      assert ListFields(items) == [first] + rest;
      EntriesFirst(first, rest);
      FirstFits(first, rest);
      assert Entries(ListFields(items))[1..] == Entries(rest);
      var fs := ValuesOf(Entries(ListFields(items)), 1);
      assert fs == [ToEntry(first).field] + ValuesOf(Entries(rest), 1);
      assert fs[1..] == ValuesOf(Entries(rest), 1);
      DecodeInvertsEncode(items[0]);
      ItemsInvert(items[1..], bound);
      assert items == [items[0]] + items[1..];
    }
  }

  /** No two JSON values share an encoding. */
  lemma {:induction false} EncodeIsInjective(v: Json, w: Json)
    requires |EncodeJson(v)| < TWO_64 && EncodeJson(v) == EncodeJson(w)
    ensures v == w
  {
    DecodeInvertsEncode(v);
    DecodeInvertsEncode(w);
  }
}
