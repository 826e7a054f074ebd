/** Connect enveloped messages: one flag byte, a big-endian 32-bit length, the payload. */
module ConnectFrames {
  import opened Prelude
  import opened Proto

  datatype Frame = Frame(flag: Byte, payload: seq<Byte>)

  /** `u32::to_be_bytes` of a length, which `as u32` first truncates to 32 bits. */
  function BigEndian32(n: nat): (r: seq<Byte>)
    ensures |r| == 4
    ensures ReadBigEndian32(r) == n % TWO_32
  {
    var w := n % TWO_32;
    var a := w / 0x100;
    var b := a / 0x100;
    [b / 0x100, b % 0x100, a % 0x100, w % 0x100]
  }

  function ReadBigEndian32(s: seq<Byte>): nat
    requires |s| == 4
  {
    s[0] as int * 0x100_0000 + s[1] as int * 0x1_0000 + s[2] as int * 0x100 + s[3]
  }

  function Wire(f: Frame): (r: seq<Byte>)
    ensures |r| == 5 + |f.payload|
  {
    [f.flag] + BigEndian32(|f.payload|) + f.payload
  }

  function WireAll(fs: seq<Frame>): seq<Byte> {
    if fs == [] then [] else Wire(fs[0]) + WireAll(fs[1..])
  }

  method EncodeFrame(payload: seq<Byte>) returns (out: seq<Byte>)
    ensures out == Wire(Frame(0, payload))
  {
    out := [0];
    out := out + BigEndian32(|payload|);
    out := out + payload;
  }

  /** What the decoder delivers for a frame: odd flags are gunzipped where that succeeds. */
  function Deliver(f: Frame, gunzip: seq<Byte> -> Option<seq<Byte>>): Frame {
    if f.flag % 2 == 0 then f
    else match gunzip(f.payload) case None => f case Some(plain) => Frame(f.flag, plain)
  }

  /** The complete frames at the start of `s`, as they lie on the wire. */
  function FramesOf(s: seq<Byte>): seq<Frame>
    decreases |s|
  {
    if |s| < 5 then []
    else
      var end := 5 + ReadBigEndian32(s[1..5]);
      if end > |s| then [] else [Frame(s[0], s[5..end])] + FramesOf(s[end..])
  }

  function DeliverAll(fs: seq<Frame>, gunzip: seq<Byte> -> Option<seq<Byte>>): (r: seq<Frame>)
    ensures |r| == |fs|
  {
    seq(|fs|, i requires 0 <= i < |fs| => Deliver(fs[i], gunzip))
  }

  method DecodeFrames(raw: seq<Byte>, gunzip: seq<Byte> -> Option<seq<Byte>>) returns (frames: seq<Frame>)
    ensures frames == DeliverAll(FramesOf(raw), gunzip)
  {
    hide FramesOf, DeliverAll, Deliver, ReadBigEndian32;
    frames := [];
    var pos := 0;
    assert raw[0..] == raw && [] + DeliverAll(FramesOf(raw), gunzip) == DeliverAll(FramesOf(raw), gunzip);
    while pos + 5 <= |raw|
      invariant pos <= |raw|
      invariant DeliverAll(FramesOf(raw), gunzip) == frames + DeliverAll(FramesOf(raw[pos..]), gunzip)
      decreases |raw| - pos
    {
      DeliverStep(raw, pos, gunzip);
      var flag := raw[pos];
      var len := ReadBigEndian32(raw[pos + 1..pos + 5]);
      var start := pos + 5;
      var end := start + len;
      if end > |raw| { break; }
      var payload := raw[start..end];
      var frame := Frame(flag, payload);
      if flag % 2 != 0 {
        var plain := gunzip(payload);
        if plain.Some? { frame := Frame(flag, plain.value); }
      }
      assert frame == Deliver(Frame(flag, payload), gunzip) by { DeliverIs(flag, payload, gunzip); }
      Associative(frames, [frame], DeliverAll(FramesOf(raw[end..]), gunzip));
      frames := frames + [frame];
      pos := end;
    }
    if pos + 5 > |raw| { DeliverShort(raw, pos, gunzip); }
    assert frames + [] == frames;
  }

  lemma {:induction false} DeliverIs(flag: Byte, payload: seq<Byte>, gunzip: seq<Byte> -> Option<seq<Byte>>)
    ensures Deliver(Frame(flag, payload), gunzip) ==
            if flag % 2 != 0 && gunzip(payload).Some? then Frame(flag, gunzip(payload).value) else Frame(flag, payload)
  {}

  lemma {:induction false} DeliverShort(raw: seq<Byte>, pos: nat, gunzip: seq<Byte> -> Option<seq<Byte>>)
    requires pos <= |raw| < pos + 5
    ensures DeliverAll(FramesOf(raw[pos..]), gunzip) == []
  {}

  lemma {:induction false} DeliverStep(raw: seq<Byte>, pos: nat, gunzip: seq<Byte> -> Option<seq<Byte>>)
    requires pos + 5 <= |raw|
    ensures var end := pos + 5 + ReadBigEndian32(raw[pos + 1..pos + 5]);
            DeliverAll(FramesOf(raw[pos..]), gunzip) ==
            if end > |raw| then []
            else [Deliver(Frame(raw[pos], raw[pos + 5..end]), gunzip)] + DeliverAll(FramesOf(raw[end..]), gunzip)
  {
    hide Deliver, ReadBigEndian32;
    var len := ReadBigEndian32(raw[pos + 1..pos + 5]);
    SliceOfTail(raw, pos, 1, 5);
    if pos + 5 + len <= |raw| {
      SliceOfTail(raw, pos, 5, 5 + len);
      TailOfTail(raw, pos, 5 + len);
    }
  }

  predicate Fits(f: Frame) {
    |f.payload| < TWO_32
  }

  /** How many leading frames lie within the first `k` bytes. */
  function CompleteFrames(fs: seq<Frame>, k: nat): (n: nat)
    ensures n <= |fs| && |WireAll(fs[..n])| <= k
    ensures n < |fs| ==> |WireAll(fs[..n + 1])| > k
  {
    if fs == [] then 0
    else if |Wire(fs[0])| > k then
      assert fs[..1] == [fs[0]];
      0
    else
      var n := CompleteFrames(fs[1..], k - |Wire(fs[0])|);
      assert fs[..n + 1] == [fs[0]] + fs[1..][..n];
      assert n + 1 < |fs| ==> fs[..n + 2] == [fs[0]] + fs[1..][..n + 1];
      n + 1
  }

  lemma {:induction false} HeaderOf(f: Frame, rest: seq<Byte>)
    ensures var s, end := Wire(f) + rest, 5 + |f.payload|;
            s[0] == f.flag && s[1..5] == BigEndian32(|f.payload|) && s[5..end] == f.payload && s[end..] == rest
  {
    hide BigEndian32;
    Associative([f.flag] + BigEndian32(|f.payload|), f.payload, rest);
  }

  lemma {:induction false} FirstFrame(f: Frame, rest: seq<Byte>)
    requires Fits(f)
    ensures FramesOf(Wire(f) + rest) == [f] + FramesOf(rest)
  {
    hide Wire, BigEndian32, ReadBigEndian32;
    HeaderOf(f, rest);
  }

  lemma {:induction false} CutFrame(f: Frame, k: nat)
    requires Fits(f) && k < |Wire(f)|
    ensures FramesOf(Wire(f)[..k]) == []
  {
    hide BigEndian32, ReadBigEndian32;
    if k >= 5 {
      HeaderOf(f, []);
      assert Wire(f) + [] == Wire(f);
      assert Wire(f)[..k][1..5] == Wire(f)[1..5];
    }
  }

  /** Cutting a frame stream anywhere keeps exactly the complete frames, in order. */
  lemma {:induction false} CutKeepsCompleteFrames(fs: seq<Frame>, k: nat)
    requires forall f <- fs :: Fits(f)
    requires k <= |WireAll(fs)|
    ensures FramesOf(WireAll(fs)[..k]) == fs[..CompleteFrames(fs, k)]
  {
    hide Wire, FramesOf;
    if fs == [] {
      FramesOfShort(WireAll(fs)[..k]);
    } else {
      var first, others := Wire(fs[0]), WireAll(fs[1..]);
      if k < |first| {
        CutWithin(first, others, k);
        CutFrame(fs[0], k);
      } else {
        var n := CompleteFrames(fs[1..], k - |first|);
        CutAfter(first, others, k);
        CutKeepsCompleteFrames(fs[1..], k - |first|);
        FirstFrame(fs[0], others[..k - |first|]);
        assert fs[..n + 1] == [fs[0]] + fs[1..][..n];
      }
    }
  }

  lemma {:induction false} FramesOfShort(s: seq<Byte>)
    requires |s| < 5
    ensures FramesOf(s) == []
  {}

  lemma {:induction false} AllFramesComplete(fs: seq<Frame>)
    ensures CompleteFrames(fs, |WireAll(fs)|) == |fs|
  {
    if fs != [] { AllFramesComplete(fs[1..]); }
  }

  /** A whole stream of frames decodes to those frames. */
  lemma {:induction false} FramesInvert(fs: seq<Frame>)
    requires forall f <- fs :: Fits(f)
    ensures FramesOf(WireAll(fs)) == fs
  {
    var s := WireAll(fs);
    AllFramesComplete(fs);
    CutKeepsCompleteFrames(fs, |s|);
    assert s[..|s|] == s && fs[..|fs|] == fs;
  }

  /** One encoded payload survives the trip exactly when its length fits the 32-bit length field. */
  lemma {:induction false} FrameInvertsIffFits(payload: seq<Byte>)
    ensures FramesOf(Wire(Frame(0, payload))) == [Frame(0, payload)] <==> |payload| < TWO_32
  {
    var f := Frame(0, payload);
    var s := Wire(f);
    if |payload| < TWO_32 {
      FirstFrame(f, []);
      assert s + [] == s;
      FramesOfShort([]);
    } else {
      assert s[1..5] == BigEndian32(|payload|);
      assert ReadBigEndian32(s[1..5]) < |payload|;
      assert |FramesOf(s)[0].payload| < |payload|;
    }
  }
}
