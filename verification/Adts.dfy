/** ADTS frames: splitting AAC data into frames and describing the codec to an MP4 decoder. */
module Adts {
  import opened Bytes
  import opened Wrappers

  datatype AdtsFrame = AdtsFrame(offset: nat, frameLength: nat, headerSize: nat, audioObjectType: nat,
                                 samplingFrequencyIndex: nat, channelConfiguration: nat)

  const ADTS_SAMPLING_RATES := [96000, 88200, 64000, 48000, 44100, 32000, 24000, 22050, 16000, 12000, 11025, 8000, 7350]

  function SampleRate(index: nat): nat
  {
    if index < |ADTS_SAMPLING_RATES| then ADTS_SAMPLING_RATES[index] else 0
  }

  predicate SyncAt(d: seq<byte>, o: nat)
  {
    o + 7 <= |d| && d[o] == 0xFF && d[o + 1] / 16 == 15
  }

  /** The frame whose sync word stands at `o`. */
  function FrameAt(d: seq<byte>, o: nat): AdtsFrame
    requires o + 7 <= |d|
  {
    var b2: int, b3: int, b4: int, b5: int := d[o + 2], d[o + 3], d[o + 4], d[o + 5];
    AdtsFrame(o, b3 % 4 * 2048 + b4 * 8 + b5 / 32, if d[o + 1] % 2 == 0 then 9 else 7,
              b2 / 64 + 1, b2 / 4 % 16, b2 % 2 * 4 + b3 / 64)
  }

  predicate Complete(d: seq<byte>, f: AdtsFrame)
  {
    f.headerSize <= f.frameLength && f.offset + f.frameLength <= |d|
  }

  /** The frames from `o` on; an incomplete frame ends the list. */
  function Frames(d: seq<byte>, o: nat): seq<AdtsFrame>
    decreases |d| - o
  {
    if o + 7 > |d| then []
    else if !SyncAt(d, o) then Frames(d, o + 1)
    else
      var f := FrameAt(d, o);
      if Complete(d, f) then [f] + Frames(d, o + f.frameLength) else []
  }

  method ParseAdtsFrames(data: seq<byte>) returns (frames: seq<AdtsFrame>)
    ensures frames == Frames(data, 0)
  {
    hide FrameAt, SyncAt;
    frames := [];
    var offset := 0;
    while offset + 7 <= |data|
      invariant frames + Frames(data, offset) == Frames(data, 0)
      decreases |data| - offset
    {
      if !SyncAt(data, offset) {
        offset := offset + 1;
      } else {
        var frame := FrameAt(data, offset);
        FrameAtOffset(data, offset);
        if !Complete(data, frame) { break; }
        ghost var rest := Frames(data, offset + frame.frameLength);
        assert (frames + [frame]) + rest == frames + ([frame] + rest);
        frames := frames + [frame];
        offset := offset + frame.frameLength;
      }
    }
    assert frames + [] == frames;
  }

  lemma FrameAtOffset(d: seq<byte>, o: nat)
    requires o + 7 <= |d|
    ensures FrameAt(d, o).offset == o && FrameAt(d, o).headerSize >= 7
  {
  }

  /** The raw AAC data of one frame. */
  function Raw(d: seq<byte>, f: AdtsFrame): seq<byte>
  {
    if Complete(d, f) then d[f.offset + f.headerSize..f.offset + f.frameLength] else []
  }

  function RawParts(d: seq<byte>, fs: seq<AdtsFrame>): seq<seq<byte>>
  {
    if fs == [] then [] else [Raw(d, fs[0])] + RawParts(d, fs[1..])
  }

  /** The frames lie within the data from `o` on, in order and without overlap. */
  predicate InOrder(d: seq<byte>, o: nat, fs: seq<AdtsFrame>)
    decreases |fs|
  {
    fs != [] ==>
      && o <= fs[0].offset && Complete(d, fs[0])
      && InOrder(d, fs[0].offset + fs[0].frameLength, fs[1..])
  }

  /** On any input at all, the frames found are disjoint and complete. */
  lemma {:induction false} FramesAreDisjoint(d: seq<byte>, o: nat)
    ensures InOrder(d, o, Frames(d, o))
    decreases |d| - o
  {
    hide FrameAt, SyncAt;
    if o + 7 <= |d| {
      if !SyncAt(d, o) {
        FramesAreDisjoint(d, o + 1);
        Earlier(d, o, o + 1, Frames(d, o + 1));
      } else {
        FrameAtOffset(d, o);
        var f := FrameAt(d, o);
        if Complete(d, f) {
          FramesAreDisjoint(d, o + f.frameLength);
          assert Frames(d, o)[1..] == Frames(d, o + f.frameLength);
        }
      }
    }
  }

  lemma Earlier(d: seq<byte>, o: nat, p: nat, fs: seq<AdtsFrame>)
    requires o <= p && InOrder(d, p, fs)
    ensures InOrder(d, o, fs)
  {
  }

  // ------------------------------------------------------------------ frames as an encoder writes them

  /** An AAC frame with its header fields; `idLayer`, `misc`, `fullness` and `last` hold the bits the parser skips. */
  datatype AacFrame = AacFrame(idLayer: nat, crc: Option<seq<byte>>, audioObjectType: nat, samplingFrequencyIndex: nat,
                               priv: nat, channelConfiguration: nat, misc: nat, fullness: nat, last: byte,
                               payload: seq<byte>)
  {
    predicate Valid()
    {
      && idLayer < 8 && 1 <= audioObjectType <= 4 && samplingFrequencyIndex < 16 && priv < 2
      && channelConfiguration < 8 && misc < 16 && fullness < 32
      && (crc.Some? ==> |crc.value| == 2)
      && Length() < 0x2000
    }

    function Crc(): seq<byte> { match crc case None => [] case Some(c) => c }

    function Length(): nat { 7 + |Crc()| + |payload| }

    function Header(): (h: seq<byte>)
      requires Valid()
      ensures |h| == 7
    {
      var n := Length();
      [0xFF,
       0xF0 + idLayer * 2 + (if crc.None? then 1 else 0),
       (audioObjectType - 1) * 64 + samplingFrequencyIndex * 4 + priv * 2 + channelConfiguration / 4,
       channelConfiguration % 4 * 64 + misc * 4 + n / 2048,
       n / 8 % 256,
       n % 8 * 32 + fullness,
       last]
    }

    function Bytes(): seq<byte>
      requires Valid()
    {
      Header() + Crc() + payload
    }

    /** The same frame as the parser reports it at `o`. */
    function At(o: nat): AdtsFrame
    {
      AdtsFrame(o, Length(), 7 + |Crc()|, audioObjectType, samplingFrequencyIndex, channelConfiguration)
    }
  }

  function Encode(fs: seq<AacFrame>): seq<byte>
    requires forall f :: f in fs ==> f.Valid()
  {
    if fs == [] then [] else assert fs[0] in fs; fs[0].Bytes() + Encode(fs[1..])
  }

  function AllAt(fs: seq<AacFrame>, o: nat): seq<AdtsFrame>
  {
    if fs == [] then [] else [fs[0].At(o)] + AllAt(fs[1..], o + fs[0].Length())
  }

  function Payloads(fs: seq<AacFrame>): seq<seq<byte>>
  {
    if fs == [] then [] else [fs[0].payload] + Payloads(fs[1..])
  }

  lemma HeaderBack(d: seq<byte>, o: nat, f: AacFrame)
    requires f.Valid() && o + 7 <= |d| && d[o..o + 7] == f.Header()
    ensures SyncAt(d, o) && FrameAt(d, o) == f.At(o)
  {
    var h := d[o..o + 7];
    assert d[o] == h[0] && d[o + 1] == h[1] && d[o + 2] == h[2] && d[o + 3] == h[3] && d[o + 4] == h[4] && d[o + 5] == h[5];
    HeaderBits(f);
  }

  lemma HeaderBits(f: AacFrame)
    requires f.Valid()
    ensures var h := f.Header();
            var b2: int, b3: int, b4: int, b5: int := h[2], h[3], h[4], h[5];
            && b3 % 4 * 2048 + b4 * 8 + b5 / 32 == f.Length()
            && (h[1] % 2 == 0 <==> f.crc.Some?) && h[1] / 16 == 15
            && b2 / 64 + 1 == f.audioObjectType && b2 / 4 % 16 == f.samplingFrequencyIndex
            && b2 % 2 * 4 + b3 / 64 == f.channelConfiguration
  {
    LengthBits(f.Length(), f.channelConfiguration % 4, f.misc, f.fullness);
    KindBits(f.audioObjectType - 1, f.samplingFrequencyIndex, f.priv, f.channelConfiguration / 4);
    assert (0xF0 + f.idLayer * 2 + (if f.crc.None? then 1 else 0)) / 16 == 15;
  }

  lemma LengthBits(n: nat, c: nat, misc: nat, fullness: nat)
    requires n < 0x2000 && c < 4 && misc < 16 && fullness < 32
    ensures var b3, b5 := c * 64 + misc * 4 + n / 2048, n % 8 * 32 + fullness;
            b3 % 4 == n / 2048 && b3 / 64 == c && b5 / 32 == n % 8
    ensures n / 2048 * 2048 + n / 8 % 256 * 8 + n % 8 == n
  {
    var q := n / 2048;
    assert (c * 64 + misc * 4 + q) % 4 == q % 4;
    var e := n / 8;
    assert n == e * 8 + n % 8 && e / 256 == q;
  }

  lemma KindBits(kind: nat, index: nat, priv: nat, c: nat)
    requires kind < 4 && index < 16 && priv < 2 && c < 2
    ensures var b2 := kind * 64 + index * 4 + priv * 2 + c;
            b2 / 64 == kind && b2 / 4 % 16 == index && b2 % 2 == c
  {
    assert (kind * 64 + index * 4 + priv * 2 + c) / 4 == kind * 16 + index;
    assert (kind * 16 + index) % 16 == index;
  }

  lemma FrameParts(d: seq<byte>, o: nat, f: AacFrame, rest: seq<byte>)
    requires f.Valid() && o <= |d| && d[o..] == f.Bytes() + rest
    ensures o + f.Length() <= |d| && d[o + f.Length()..] == rest
    ensures SyncAt(d, o) && FrameAt(d, o) == f.At(o) && Complete(d, f.At(o)) && Raw(d, f.At(o)) == f.payload
  {
    hide AacFrame.Header, SyncAt, FrameAt;
    var b := f.Bytes();
    assert d[o..][..|b|] == b && d[o..][|b|..] == rest;
    assert d[o..o + 7] == b[..7] == f.Header();
    HeaderBack(d, o, f);
    var k := 7 + |f.Crc()|;
    assert b[k..] == f.payload;
    assert d[o + k..o + |b|] == d[o..][..|b|][k..];
  }

  /** Splitting undoes framing: every frame comes back with its fields, and its raw data is the payload. */
  lemma {:induction false} FramesBack(d: seq<byte>, o: nat, fs: seq<AacFrame>)
    requires forall f :: f in fs ==> f.Valid()
    requires o <= |d| && d[o..] == Encode(fs)
    ensures Frames(d, o) == AllAt(fs, o)
    ensures RawParts(d, Frames(d, o)) == Payloads(fs)
    decreases |fs|
  {
    hide AacFrame.Valid, AacFrame.Bytes, AacFrame.At, SyncAt, FrameAt, Raw;
    if fs != [] {
      assert fs[0] in fs;
      FrameParts(d, o, fs[0], Encode(fs[1..]));
      AtLength(fs[0], o);
      FramesBack(d, o + fs[0].Length(), fs[1..]);
      assert Frames(d, o)[1..] == AllAt(fs[1..], o + fs[0].Length());
    }
  }

  lemma AtLength(f: AacFrame, o: nat)
    ensures f.At(o).frameLength == f.Length() >= 7
  {
  }

  lemma FramesRecovered(fs: seq<AacFrame>)
    requires forall f :: f in fs ==> f.Valid()
    ensures Frames(Encode(fs), 0) == AllAt(fs, 0)
    ensures RawParts(Encode(fs), Frames(Encode(fs), 0)) == Payloads(fs)
  {
    assert Encode(fs)[0..] == Encode(fs);
    FramesBack(Encode(fs), 0, fs);
  }

  // ------------------------------------------------------------------ bytes that are no frames

  /** No sync word begins in these bytes, whatever stands behind them. */
  predicate Quiet(junk: seq<byte>)
  {
    forall k :: 0 <= k < |junk| && junk[k] == 0xFF ==> k + 1 < |junk| && junk[k + 1] / 16 != 15
  }

  /** Frames with other bytes in front of each. */
  function Spaced(gaps: seq<seq<byte>>, fs: seq<AacFrame>): seq<byte>
    requires |gaps| == |fs| && forall f :: f in fs ==> f.Valid()
    decreases |fs|
  {
    if fs == [] then [] else assert fs[0] in fs; gaps[0] + (fs[0].Bytes() + Spaced(gaps[1..], fs[1..]))
  }

  function SpacedAt(gaps: seq<seq<byte>>, fs: seq<AacFrame>, o: nat): seq<AdtsFrame>
    requires |gaps| == |fs|
    decreases |fs|
  {
    if fs == [] then [] else [fs[0].At(o + |gaps[0]|)] + SpacedAt(gaps[1..], fs[1..], o + |gaps[0]| + fs[0].Length())
  }

  lemma {:induction false} GapSkipped(d: seq<byte>, o: nat, junk: seq<byte>, rest: seq<byte>)
    requires Quiet(junk) && o <= |d| && d[o..] == junk + rest
    ensures o + |junk| <= |d| && d[o + |junk|..] == rest && Frames(d, o) == Frames(d, o + |junk|)
    decreases |junk|
  {
    hide FrameAt;
    assert d[o..][|junk|..] == rest;
    if junk != [] {
      assert d[o] == d[o..][0] == junk[0];
      if o + 1 < |d| && |junk| > 1 { assert d[o + 1] == d[o..][1] == junk[1]; }
      assert d[o + 1..] == d[o..][1..] == junk[1..] + rest;
      QuietRest(junk);
      GapSkipped(d, o + 1, junk[1..], rest);
    }
  }

  lemma QuietRest(junk: seq<byte>)
    requires Quiet(junk) && junk != []
    ensures Quiet(junk[1..])
  {
    var r := junk[1..];
    forall k | 0 <= k < |r| && r[k] == 0xFF ensures k + 1 < |r| && r[k + 1] / 16 != 15 { assert junk[k + 1] == 0xFF; }
  }

  /** The beginning of a frame is none. */
  lemma CutFrame(d: seq<byte>, o: nat, f: AacFrame, n: nat)
    requires f.Valid() && n < f.Length() && o <= |d| && d[o..] == f.Bytes()[..n]
    ensures Frames(d, o) == []
  {
    hide AacFrame.Header, SyncAt, FrameAt;
    if n >= 7 {
      assert d[o..o + 7] == d[o..][..7] == f.Bytes()[..7] == f.Header();
      HeaderBack(d, o, f);
    }
  }

  lemma {:induction false} SpacedBack(d: seq<byte>, o: nat, gaps: seq<seq<byte>>, fs: seq<AacFrame>, rest: seq<byte>)
    requires |gaps| == |fs| && (forall f :: f in fs ==> f.Valid()) && (forall g :: g in gaps ==> Quiet(g))
    requires o <= |d| && d[o..] == Spaced(gaps, fs) + rest && Frames(d, o + |Spaced(gaps, fs)|) == []
    ensures Frames(d, o) == SpacedAt(gaps, fs, o) && RawParts(d, Frames(d, o)) == Payloads(fs)
    decreases |fs|
  {
    hide AacFrame.Valid, AacFrame.Bytes, AacFrame.At, SyncAt, FrameAt, Raw, Quiet;
    if fs != [] {
      assert fs[0] in fs && gaps[0] in gaps;
      assert (forall f :: f in fs[1..] ==> f in fs) && forall g :: g in gaps[1..] ==> g in gaps;
      var more := Spaced(gaps[1..], fs[1..]) + rest;
      Nested(gaps[0], fs[0].Bytes(), Spaced(gaps[1..], fs[1..]), rest);
      GapSkipped(d, o, gaps[0], fs[0].Bytes() + more);
      var p := o + |gaps[0]|;
      FrameParts(d, p, fs[0], more);
      AtLength(fs[0], p);
      BytesLength(fs[0]);
      SpacedBack(d, p + fs[0].Length(), gaps[1..], fs[1..], rest);
      assert Frames(d, p)[1..] == Frames(d, p + fs[0].Length());
    }
  }

  lemma BytesLength(f: AacFrame)
    requires f.Valid()
    ensures |f.Bytes()| == f.Length()
  {
  }

  lemma Nested(a: seq<byte>, b: seq<byte>, c: seq<byte>, d: seq<byte>)
    ensures (a + (b + c)) + d == a + (b + (c + d))
  {
  }

  /** Frames are found behind and between bytes in which no sync word begins; such bytes change nothing but the offsets. The
      beginning of a frame at the end is passed over. */
  lemma Resynchronised(gaps: seq<seq<byte>>, fs: seq<AacFrame>, tail: seq<byte>, cut: AacFrame, n: nat)
    requires |gaps| == |fs| && (forall f :: f in fs ==> f.Valid()) && (forall g :: g in gaps ==> Quiet(g)) && Quiet(tail)
    requires cut.Valid() && n < cut.Length()
    ensures var d := Spaced(gaps, fs) + (tail + cut.Bytes()[..n]);
            Frames(d, 0) == SpacedAt(gaps, fs, 0) && RawParts(d, Frames(d, 0)) == Payloads(fs)
  {
    hide AacFrame.Valid, AacFrame.Bytes, Quiet, Frames;
    BytesLength(cut);
    var rest := tail + cut.Bytes()[..n];
    var d, p := Spaced(gaps, fs) + rest, |Spaced(gaps, fs)|;
    assert d[p..] == rest && d[0..] == d;
    GapSkipped(d, p, tail, cut.Bytes()[..n]);
    CutFrame(d, p + |tail|, cut, n);
    SpacedBack(d, 0, gaps, fs, rest);
  }

  // ------------------------------------------------------------------ AudioSpecificConfig

  method BuildAudioSpecificConfig(frame: AdtsFrame) returns (config: seq<byte>)
    requires frame.audioObjectType < 32 && frame.samplingFrequencyIndex < 16 && frame.channelConfiguration < 16
    ensures config == AudioSpecificConfig(frame)
  {
    var c := new byte[2];
    c[0] := frame.audioObjectType * 8 + frame.samplingFrequencyIndex / 2;
    c[1] := frame.samplingFrequencyIndex % 2 * 128 + frame.channelConfiguration * 8;
    config := c[..];
  }

  /** The two bytes; a value stored in a byte keeps its low eight bits. */
  function AudioSpecificConfig(f: AdtsFrame): (c: seq<byte>)
    ensures |c| == 2
  {
    [(f.audioObjectType * 8 + f.samplingFrequencyIndex % 16 / 2) % 256,
     (f.samplingFrequencyIndex % 2 * 128 + f.channelConfiguration * 8) % 256]
  }

  /** Five bits of object type, four of frequency index, four of channels: a decoder reads back the frame's fields. */
  lemma ConfigBack(f: AdtsFrame)
    requires f.audioObjectType < 32 && f.samplingFrequencyIndex < 16 && f.channelConfiguration < 16
    ensures var c := AudioSpecificConfig(f);
            var c0: int, c1: int := c[0], c[1];
            && c0 / 8 == f.audioObjectType
            && c0 % 8 * 2 + c1 / 128 == f.samplingFrequencyIndex
            && c1 / 8 % 16 == f.channelConfiguration
  {
    ConfigBits(f.audioObjectType, f.samplingFrequencyIndex / 2, f.samplingFrequencyIndex % 2, f.channelConfiguration);
  }

  lemma ConfigBits(a: nat, half: nat, low: nat, c: nat)
    requires a < 32 && half < 8 && low < 2 && c < 16
    ensures (a * 8 + half) % 256 / 8 == a && (a * 8 + half) % 256 % 8 == half
    ensures (low * 128 + c * 8) % 256 / 128 == low && (low * 128 + c * 8) % 256 / 8 % 16 == c
  {
    assert (low * 128 + c * 8) / 8 == low * 16 + c;
    assert (low * 16 + c) % 16 == c;
  }
}
