/**
 The stateful transmuxer: each call turns one MPEG-TS or ADTS segment into an initialization
 segment, media fragments and codec names, and advances the track state.
 */
module Transmuxer {
  import opened Bytes
  import opened Strings
  import opened Wrappers
  import AnnexB
  import Sps
  import Pes
  import MpegTs
  import Adts
  import opened Mp4
  import opened InitSegment

  datatype TransmuxTrack = Audio | Video

  /** The value of the track state between two calls. */
  datatype State = State(track: Option<TransmuxTrack>, initSegment: Option<seq<byte>>, sequenceNumber: nat,
                         audioConfig: Option<AudioTrackConfig>, videoConfig: Option<VideoTrackConfig>,
                         audioDecodeTime: nat, videoDecodeTime: nat,
                         audioTrackId: Option<nat>, videoTrackId: Option<nat>)

  /** A fragment and the kind of track it belongs to. */
  datatype Emission = Emission(kind: TransmuxTrack, piece: Piece)

  datatype Outcome = Emitted(init: seq<byte>, emissions: seq<Emission>, codecs: seq<string>) | Failed(message: string)

  datatype StepResult = StepResult(state: State, outcome: Outcome)

  function Initial(track: Option<TransmuxTrack>): State
  {
    State(track, None, 1, None, None, 0, 0, None, None)
  }

  // ------------------------------------------------------------------ the container kinds

  predicate Id3At(d: seq<byte>, off: nat)
  {
    off + 10 <= |d| && d[off] == 0x49 && d[off + 1] == 0x44 && d[off + 2] == 0x33
  }

  /** Four bytes of seven bits each. */
  function SynchsafeSize(d: seq<byte>, off: nat): nat
    requires off + 10 <= |d|
  {
    var a: int, b: int, c: int, e: int := d[off + 6], d[off + 7], d[off + 8], d[off + 9];
    a % 128 * 0x20_0000 + b % 128 * 0x4000 + c % 128 * 0x80 + e % 128
  }

  function Id3End(d: seq<byte>, off: nat): nat
    decreases |d| - off
  {
    if Id3At(d, off) then Id3End(d, off + 10 + SynchsafeSize(d, off)) else off
  }

  /** What is left behind leading ID3 tags. */
  function WithoutId3(d: seq<byte>): seq<byte>
  {
    var off := Id3End(d, 0);
    if off <= |d| then d[off..] else []
  }

  method SkipId3Tags(data: seq<byte>) returns (rest: seq<byte>)
    ensures rest == WithoutId3(data)
  {
    hide SynchsafeSize;
    var offset := 0;
    while Id3At(data, offset)
      invariant Id3End(data, offset) == Id3End(data, 0)
      decreases |data| - offset
    {
      var size := SynchsafeSize(data, offset);
      offset := offset + 10 + size;
    }
    if offset > 0 {
      rest := if offset <= |data| then data[offset..] else [];
    } else {
      rest := data;
    }
  }

  /** An ID3v2 tag; a flag announces a footer of ten bytes behind it. */
  datatype Id3Tag = Id3Tag(version: byte, revision: byte, flags: byte, frames: seq<byte>)
  {
    function Sizes(): seq<byte>
    {
      var n := |frames|;
      [n / 0x20_0000 % 128, n / 0x4000 % 128, n / 0x80 % 128, n % 128]
    }

    function Header(): seq<byte> { [0x49, 0x44, 0x33, version, revision, flags] + Sizes() }

    predicate HasFooter() { flags / 16 % 2 == 1 }

    function Footer(): seq<byte>
    {
      if HasFooter() then [0x33, 0x44, 0x49, version, revision, flags] + Sizes() else []
    }

    function Bytes(): seq<byte> { Header() + frames + Footer() }

    predicate SizeFits() { |frames| < 0x1000_0000 }
  }

  function TagBytes(tags: seq<Id3Tag>): seq<byte>
  {
    if tags == [] then [] else tags[0].Bytes() + TagBytes(tags[1..])
  }

  /** What is left of tags when skipping stops at the first footer. */
  function FromFooter(tags: seq<Id3Tag>): seq<byte>
  {
    if tags == [] then [] else if tags[0].HasFooter() then tags[0].Footer() + TagBytes(tags[1..]) else FromFooter(tags[1..])
  }

  lemma SynchsafeBack(n: nat)
    requires n < 0x1000_0000
    ensures n / 0x20_0000 % 128 * 0x20_0000 + n / 0x4000 % 128 * 0x4000 + n / 0x80 % 128 * 0x80 + n % 128 == n
  {
    var a := n / 0x80;
    var b := a / 0x80;
    assert n == a * 0x80 + n % 128 && a == b * 0x80 + a % 128 && b == b / 0x80 * 0x80 + b % 128;
    assert n / 0x4000 == b && n / 0x20_0000 == b / 0x80;
  }

  lemma SizeAt(d: seq<byte>, off: nat, n: nat)
    requires off + 10 <= |d| && n < 0x1000_0000
    requires d[off + 6] == n / 0x20_0000 % 128 && d[off + 7] == n / 0x4000 % 128 && d[off + 8] == n / 0x80 % 128 && d[off + 9] == n % 128
    ensures SynchsafeSize(d, off) == n
  {
    SynchsafeBack(n);
    Twice(n / 0x20_0000);
    Twice(n / 0x4000);
    Twice(n / 0x80);
    Twice(n);
  }

  lemma Twice(n: nat)
    ensures n % 128 % 128 == n % 128
  {
  }

  lemma TagHead(d: seq<byte>, off: nat, t: Id3Tag, rest: seq<byte>)
    requires t.SizeFits() && off <= |d| && d[off..] == t.Bytes() + rest
    ensures Id3At(d, off) && SynchsafeSize(d, off) == |t.frames|
    ensures off + 10 + |t.frames| <= |d| && d[off + 10 + |t.frames|..] == t.Footer() + rest
  {
    hide SynchsafeSize, Id3Tag.Footer, Id3Tag.Header, Id3At, Id3Tag.Sizes;
    var h, tail := t.Header(), t.frames + (t.Footer() + rest);
    HeaderIs(t);
    assert d[off..] == h + tail;
    assert d[off + 10..] == d[off..][10..] == tail;
    assert d[off + 10 + |t.frames|..] == d[off + 10..][|t.frames|..] == t.Footer() + rest;
    HeaderAt(d, off, t, tail);
  }

  lemma HeaderIs(t: Id3Tag)
    ensures |t.Header()| == 10 && t.Header()[0] == 0x49 && t.Header()[1] == 0x44 && t.Header()[2] == 0x33
    ensures var n := |t.frames|;
            && t.Header()[6] == n / 0x20_0000 % 128 && t.Header()[7] == n / 0x4000 % 128 && t.Header()[8] == n / 0x80 % 128
            && t.Header()[9] == n % 128
  {
  }

  lemma HeaderAt(d: seq<byte>, off: nat, t: Id3Tag, tail: seq<byte>)
    requires t.SizeFits() && off <= |d| && d[off..] == t.Header() + tail
    ensures Id3At(d, off) && SynchsafeSize(d, off) == |t.frames|
  {
    hide SynchsafeSize, Id3Tag.Header;
    var h, n := t.Header(), |t.frames|;
    HeaderIs(t);
    assert forall k :: 0 <= k < 10 ==> d[off + k] == d[off..][k] == h[k];
    assert d[off + 0] == h[0];
    SizeAt(d, off, n);
  }

  /** One tag passed: behind a footer's beginning nothing more is skipped. */
  lemma TagPassed(d: seq<byte>, off: nat, t: Id3Tag, rest: seq<byte>)
    requires t.SizeFits() && off <= |d| && d[off..] == t.Bytes() + rest
    ensures var next := off + 10 + |t.frames|;
            next <= |d| && d[next..] == t.Footer() + rest && Id3End(d, off) == if t.HasFooter() then next else Id3End(d, next)
  {
    hide SynchsafeSize, Id3At, Id3Tag.Bytes, Id3Tag.Footer, Id3Tag.HasFooter, Id3Tag.SizeFits;
    TagHead(d, off, t, rest);
    var next := off + 10 + |t.frames|;
    assert Id3End(d, off) == Id3End(d, next);
    if t.HasFooter() { FooterIsNoTag(d, next, t, rest); }
  }

  lemma {:induction false} TagsEnd(d: seq<byte>, off: nat, tags: seq<Id3Tag>, segment: seq<byte>)
    requires off <= |d| && d[off..] == TagBytes(tags) + segment && !Id3At(segment, 0)
    requires forall t :: t in tags ==> t.SizeFits()
    ensures Id3End(d, off) <= |d| && d[Id3End(d, off)..] == FromFooter(tags) + segment
    decreases |tags|
  {
    hide Id3End, Id3At, Id3Tag.Bytes, Id3Tag.Footer, Id3Tag.HasFooter, Id3Tag.SizeFits;
    if tags == [] {
      assert d[off..] == segment;
      TagAtEnd(d, off, segment);
    } else {
      var t, rest := tags[0], TagBytes(tags[1..]) + segment;
      assert t in tags && forall x :: x in tags[1..] ==> x in tags;
      assert d[off..] == t.Bytes() + rest;
      TagPassed(d, off, t, rest);
      NoFooter(t);
      var next := off + 10 + |t.frames|;
      if t.HasFooter() {
        assert t.Footer() + rest == (t.Footer() + TagBytes(tags[1..])) + segment;
      } else {
        assert t.Footer() + rest == rest;
        TagsEnd(d, next, tags[1..], segment);
      }
    }
  }

  lemma TagAtEnd(d: seq<byte>, off: nat, segment: seq<byte>)
    requires off <= |d| && d[off..] == segment && !Id3At(segment, 0)
    ensures Id3End(d, off) == off
  {
    assert |segment| >= 10 ==> segment[0] == d[off] && segment[1] == d[off + 1] && segment[2] == d[off + 2];
  }

  lemma NoFooter(t: Id3Tag)
    ensures if t.HasFooter() then |t.Footer()| == 10 else t.Footer() == []
  {
  }

  lemma FooterIsNoTag(d: seq<byte>, off: nat, t: Id3Tag, rest: seq<byte>)
    requires t.HasFooter() && off <= |d| && d[off..] == t.Footer() + rest
    ensures !Id3At(d, off)
  {
    assert d[off..][0] == 0x33;
  }

  lemma {:induction false} NothingLeftIff(tags: seq<Id3Tag>)
    ensures FromFooter(tags) == [] <==> forall t :: t in tags ==> !t.HasFooter()
  {
    if tags != [] {
      hide Id3Tag.HasFooter, Id3Tag.Footer, Id3Tag.Bytes;
      NothingLeftIff(tags[1..]);
      NoFooter(tags[0]);
    }
  }

  /** Any number of written tags is skipped, exactly when none of them has a footer: the footer is not skipped, and
      skipping stops there. */
  lemma TagsSkippedIff(tags: seq<Id3Tag>, segment: seq<byte>)
    requires !Id3At(segment, 0) && forall t :: t in tags ==> t.SizeFits()
    ensures WithoutId3(TagBytes(tags) + segment) == FromFooter(tags) + segment
    ensures WithoutId3(TagBytes(tags) + segment) == segment <==> forall t :: t in tags ==> !t.HasFooter()
  {
    hide TagBytes, FromFooter, Id3Tag.HasFooter;
    var d := TagBytes(tags) + segment;
    assert d[0..] == d;
    TagsEnd(d, 0, tags, segment);
    NothingLeftIff(tags);
  }

  predicate IsMpegTs(d: seq<byte>)
  {
    Is(d, 0, 0x47)
  }

  predicate IsAdts(d: seq<byte>)
  {
    Is(d, 0, 0xFF) && Num(d, 1) / 16 == 15
  }

  // ------------------------------------------------------------------ audio

  function ConfigOfFrame(f: Adts.AdtsFrame): AudioTrackConfig
  {
    AudioTrackConfig(f.audioObjectType, f.samplingFrequencyIndex, f.channelConfiguration,
                     Adts.SampleRate(f.samplingFrequencyIndex), Adts.AudioSpecificConfig(f))
  }

  /** Every AAC frame is one sample of 1024 ticks. */
  function AudioSamples(data: seq<seq<byte>>): seq<SampleEntry>
  {
    if data == [] then [] else [SampleEntry(1024, |data[0]|, None, None)] + AudioSamples(data[1..])
  }

  function AudioPiece(s: State, data: seq<seq<byte>>): Piece
  {
    Piece(MoofOptions(s.sequenceNumber, IdOr0(s.audioTrackId), s.audioDecodeTime, AudioSamples(data)), data)
  }

  /** A missing track id is written as 0. */
  function IdOr0(id: Option<nat>): nat
  {
    match id case None => 0 case Some(v) => v
  }

  function EmitAudio(s: State, data: seq<seq<byte>>): State
  {
    s.(sequenceNumber := s.sequenceNumber + 1, audioDecodeTime := s.audioDecodeTime + |data| * 1024)
  }

  // ------------------------------------------------------------------ video

  function NalType(n: seq<byte>): nat
  {
    Num(n, 0) % 32
  }

  function FirstNal(nalus: seq<seq<byte>>, kind: nat): Option<seq<byte>>
  {
    if nalus == [] then None else if NalType(nalus[0]) == kind then Some(nalus[0]) else FirstNal(nalus[1..], kind)
  }

  function ByteAt(d: seq<byte>, i: nat): Option<byte>
  {
    if i < |d| then Some(d[i]) else None
  }

  function ConfigOfSets(sps: seq<byte>, pps: seq<byte>): VideoTrackConfig
  {
    var info := Sps.Info(sps);
    VideoTrackConfig(info.width, info.height, sps, pps, ByteAt(sps, 1), ByteAt(sps, 2), ByteAt(sps, 3))
  }

  datatype AccessUnit = AccessUnit(nalus: seq<seq<byte>>, isIdr: bool)

  /** Parameter sets and SEI wait for the next slice; every slice ends an access unit; other types are dropped. */
  function Group(nalus: seq<seq<byte>>, pending: seq<seq<byte>>): seq<AccessUnit>
    decreases |nalus|
  {
    if nalus == [] then []
    else
      var n := nalus[0];
      var t := NalType(n);
      if t == 7 || t == 8 || t == 6 then Group(nalus[1..], pending + [n])
      else if t == 5 || t == 1 then [AccessUnit(pending + [n], t == 5)] + Group(nalus[1..], [])
      else Group(nalus[1..], pending)
  }

  method GroupAccessUnits(videoNalus: seq<seq<byte>>) returns (accessUnits: seq<AccessUnit>)
    ensures accessUnits == Group(videoNalus, [])
  {
    hide NalType;
    accessUnits := [];
    var pendingParams: seq<seq<byte>> := [];
    for i := 0 to |videoNalus|
      invariant accessUnits + Group(videoNalus[i..], pendingParams) == Group(videoNalus, [])
    {
      var nalu := videoNalus[i];
      var naluType := NalType(nalu);
      assert videoNalus[i..][0] == nalu && videoNalus[i..][1..] == videoNalus[i + 1..];
      ghost var rest := Group(videoNalus[i + 1..], []);
      if naluType == 7 || naluType == 8 {
        pendingParams := pendingParams + [nalu];
      } else if naluType == 6 {
        pendingParams := pendingParams + [nalu];
      } else if naluType == 5 {
        Append(accessUnits, AccessUnit(pendingParams + [nalu], true), rest);
        accessUnits := accessUnits + [AccessUnit(pendingParams + [nalu], true)];
        pendingParams := [];
      } else if naluType == 1 {
        var nalus := if |pendingParams| > 0 then pendingParams + [nalu] else [nalu];
        assert nalus == pendingParams + [nalu];
        Append(accessUnits, AccessUnit(nalus, false), rest);
        accessUnits := accessUnits + [AccessUnit(nalus, false)];
        pendingParams := [];
      }
    }
    assert videoNalus[|videoNalus|..] == [];
    assert accessUnits + [] == accessUnits;
  }

  lemma Append<T>(a: seq<T>, x: T, b: seq<T>)
    ensures (a + [x]) + b == a + ([x] + b)
  {
  }

  function LengthPrefixed(n: seq<byte>): seq<byte>
  {
    BE32(|n|) + n
  }

  function Prefixed(nalus: seq<seq<byte>>): seq<seq<byte>>
  {
    if nalus == [] then [] else [LengthPrefixed(nalus[0])] + Prefixed(nalus[1..])
  }

  /** The bytes of one access unit's sample. */
  function UnitBytes(au: AccessUnit): seq<byte>
  {
    Concat(Prefixed(au.nalus))
  }

  function UnitsData(aus: seq<AccessUnit>): seq<seq<byte>>
  {
    if aus == [] then [] else [UnitBytes(aus[0])] + UnitsData(aus[1..])
  }

  /** The least element, or 0 when there is none. */
  function Least(s: seq<int>): int
  {
    if s == [] then 0 else if |s| == 1 then s[0] else if s[0] <= Least(s[1..]) then s[0] else Least(s[1..])
  }

  /** The sample of access unit `k`; a composition offset exists for as many units as there are time stamps. */
  function VideoSample(au: AccessUnit, k: nat, pts: seq<int>, frameDuration: nat): SampleEntry
  {
    SampleEntry(frameDuration, |UnitBytes(au)|, Some(if au.isIdr then 0x0200_0000 else 0x0101_0000),
                Some(if k < |pts| then pts[k] - (Least(pts) + k * frameDuration) else 0))
  }

  function VideoSamples(aus: seq<AccessUnit>, k: nat, pts: seq<int>, frameDuration: nat): seq<SampleEntry>
  {
    if aus == [] then []
    else [VideoSample(aus[0], k, pts, frameDuration)] + VideoSamples(aus[1..], k + 1, pts, frameDuration)
  }

  function Insert(x: int, s: seq<int>): seq<int>
  {
    if s == [] || x <= s[0] then [x] + s else [s[0]] + Insert(x, s[1..])
  }

  /** Numeric sort. */
  function Sort(s: seq<int>): seq<int>
  {
    if s == [] then [] else Insert(s[0], Sort(s[1..]))
  }

  function Deltas(s: seq<int>): seq<int>
  {
    if |s| < 2 then [] else [s[1] - s[0]] + Deltas(s[1..])
  }

  /** The middle gap between sorted time stamps, or the default when there is none or it is 0. */
  function FrameDuration(pts: seq<int>): int
  {
    var d := Sort(Deltas(Sort(pts)));
    if d == [] || d[|d| / 2] == 0 then 3754 else d[|d| / 2]
  }

  method ComputeFrameDuration(videoPtsList: seq<int>) returns (videoFrameDuration: int)
    ensures videoFrameDuration == FrameDuration(videoPtsList)
  {
    videoFrameDuration := 3754;
    SortLength(videoPtsList);
    var sorted := Sort(videoPtsList);
    if |videoPtsList| >= 2 {
      var deltas: seq<int> := [];
      for i := 1 to |sorted|
        invariant deltas + Deltas(sorted[i - 1..]) == Deltas(sorted)
        invariant |deltas| == i - 1
      {
        assert sorted[i - 1..][1..] == sorted[i..];
        Append(deltas, sorted[i] - sorted[i - 1], Deltas(sorted[i..]));
        deltas := deltas + [sorted[i] - sorted[i - 1]];
      }
      assert deltas + [] == deltas;
      SortLength(deltas);
      var ordered := Sort(deltas);
      videoFrameDuration := if ordered[|ordered| / 2] == 0 then 3754 else ordered[|ordered| / 2];
    }
  }

  lemma {:induction false} InsertLength(x: int, s: seq<int>)
    ensures |Insert(x, s)| == |s| + 1
  {
    if s != [] && x > s[0] { InsertLength(x, s[1..]); }
  }

  lemma {:induction false} SortLength(s: seq<int>)
    ensures |Sort(s)| == |s|
  {
    if s != [] {
      SortLength(s[1..]);
      InsertLength(s[0], Sort(s[1..]));
    }
  }

  predicate Ascending(s: seq<int>)
  {
    |s| >= 2 ==> s[0] <= s[1] && Ascending(s[1..])
  }

  lemma {:induction false} InsertSorts(x: int, s: seq<int>)
    requires Ascending(s)
    ensures Ascending(Insert(x, s)) && multiset(Insert(x, s)) == multiset(s) + multiset{x}
  {
    if s == [] || x <= s[0] {
      assert ([x] + s)[1..] == s;
    } else {
      InsertSorts(x, s[1..]);
      var r := Insert(x, s[1..]);
      assert s == [s[0]] + s[1..];
      assert ([s[0]] + r)[1..] == r;
    }
  }

  /** The sort orders its input and keeps every element as often as it occurs. */
  lemma {:induction false} SortSorts(s: seq<int>)
    ensures Ascending(Sort(s)) && multiset(Sort(s)) == multiset(s)
  {
    if s != [] {
      SortSorts(s[1..]);
      InsertSorts(s[0], Sort(s[1..]));
      assert s == [s[0]] + s[1..];
    }
  }

  lemma {:induction false} DeltasOfAscending(s: seq<int>)
    requires Ascending(s)
    ensures forall k :: 0 <= k < |Deltas(s)| ==> Deltas(s)[k] >= 0
  {
    if |s| >= 2 {
      DeltasOfAscending(s[1..]);
      var r := Deltas(s[1..]);
      assert forall k :: 1 <= k < |Deltas(s)| ==> Deltas(s)[k] == r[k - 1];
    }
  }

  /** The frame duration is never 0 and never negative. */
  lemma FrameDurationPositive(pts: seq<int>)
    ensures FrameDuration(pts) > 0
  {
    SortSorts(pts);
    var deltas := Deltas(Sort(pts));
    DeltasOfAscending(Sort(pts));
    SortSorts(deltas);
    var d := Sort(deltas);
    if d != [] {
      assert d[|d| / 2] in multiset(d);
      assert d[|d| / 2] in deltas;
    }
  }

  // ------------------------------------------------------------------ one call, on values

  /** What the audio side of a segment contributes. */
  datatype AudioInput = AudioInput(present: bool, frames: seq<Adts.AdtsFrame>, data: seq<seq<byte>>)

  datatype VideoInput = VideoInput(present: bool, nalus: seq<seq<byte>>, pts: seq<int>)

  function AudioOf(pes: seq<byte>): AudioInput
  {
    var es := Pes.Elementary(pes, 0);
    var frames := Adts.Frames(es, 0);
    AudioInput(true, frames, Adts.RawParts(es, frames))
  }

  function AudioInputOf(track: Option<TransmuxTrack>, streams: seq<MpegTs.DemuxedStream>): AudioInput
  {
    if track == Some(Video) then AudioInput(false, [], [])
    else
      match MpegTs.FirstOfType(streams, 0x0F)
      case None => AudioInput(false, [], [])
      case Some(s) => AudioOf(Concat(s.data))
  }

  function VideoOf(pes: seq<byte>): VideoInput
  {
    VideoInput(true, AnnexB.Units(Pes.Elementary(pes, 0)), Pes.PtsList(pes, 0))
  }

  function VideoInputOf(track: Option<TransmuxTrack>, streams: seq<MpegTs.DemuxedStream>): VideoInput
  {
    if track == Some(Audio) then VideoInput(false, [], [])
    else
      match MpegTs.FirstOfType(streams, 0x1B)
      case None => VideoInput(false, [], [])
      case Some(s) => VideoOf(Concat(s.data))
  }

  function WithAudioConfig(s: State, a: AudioInput): State
  {
    if a.frames != [] && s.audioConfig.None? then s.(audioConfig := Some(ConfigOfFrame(a.frames[0]))) else s
  }

  function WithVideoConfig(s: State, v: VideoInput): State
  {
    if v.present && s.videoConfig.None? then
      match (FirstNal(v.nalus, 7), FirstNal(v.nalus, 8))
      case (Some(sps), Some(pps)) => s.(videoConfig := Some(ConfigOfSets(sps, pps)))
      case _ => s
    else s
  }

  /** The tracks of an init segment, video first, numbered from 1. */
  function Traks(video: Option<VideoTrackConfig>, audio: Option<AudioTrackConfig>): seq<Trak>
  {
    var v := match video case None => []
             case Some(c) => [Trak(1, c.width, c.height, 0, VideoMdia(c))];
    v + (match audio case None => []
         case Some(c) => [Trak(|v| + 1, 0, 0, if c.channelConfiguration > 0 then 0x100 else 0, AudioMdia(c))])
  }

  /** Builds the init segment once there is a configuration, and assigns the track ids. */
  function Declare(s: State): State
  {
    if s.initSegment.None? && (s.audioConfig.Some? || s.videoConfig.Some?) then
      s.(initSegment := Some(InitBytes(TrakBytes(Traks(s.videoConfig, s.audioConfig)))),
         videoTrackId := if s.videoConfig.Some? then Some(1) else s.videoTrackId,
         audioTrackId := if s.audioConfig.Some? then Some(if s.videoConfig.Some? then 2 else 1) else s.audioTrackId)
    else s
  }

  function VideoPiece(s: State, v: VideoInput): Piece
  {
    var aus := Group(v.nalus, []);
    FrameDurationPositive(v.pts);
    Piece(MoofOptions(s.sequenceNumber, IdOr0(s.videoTrackId), s.videoDecodeTime,
                      VideoSamples(aus, 0, v.pts, FrameDuration(v.pts))),
          UnitsData(aus))
  }

  /** Whether this call emits a video fragment. */
  predicate EmitsVideo(s: State, v: VideoInput)
  {
    s.videoConfig.Some? && s.videoTrackId.Some? && Group(v.nalus, []) != []
  }

  function EmitVideo(s: State, v: VideoInput): State
  {
    FrameDurationPositive(v.pts);
    s.(sequenceNumber := s.sequenceNumber + 1,
       videoDecodeTime := s.videoDecodeTime + |Group(v.nalus, [])| * FrameDuration(v.pts))
  }

  predicate EmitsAudio(s: State, a: AudioInput)
  {
    s.audioConfig.Some? && s.audioTrackId.Some? && a.frames != []
  }

  /** The video part of a call: at most one fragment. */
  function VideoTurn(s: State, v: VideoInput): (State, seq<Emission>)
  {
    if EmitsVideo(s, v) then (EmitVideo(s, v), [Emission(Video, VideoPiece(s, v))]) else (s, [])
  }

  function AudioTurn(s: State, a: AudioInput): (State, seq<Emission>)
  {
    if EmitsAudio(s, a) then (EmitAudio(s, a.data), [Emission(Audio, AudioPiece(s, a.data))]) else (s, [])
  }

  function HexDigit(n: nat): char
    requires n < 16
  {
    "0123456789abcdef"[n]
  }

  function Hex2(b: byte): string
  {
    [HexDigit(b / 16), HexDigit(b % 16)]
  }

  function VideoCodec(c: VideoTrackConfig): Option<string>
  {
    match (c.profileIdc, c.profileCompatibility, c.levelIdc)
    case (Some(p), Some(q), Some(l)) => Some("avc1." + Hex2(p) + Hex2(q) + Hex2(l))
    case _ => None
  }

  /** The codec names of the declared tracks, video first; a parameter set too short to name one is an error. */
  function Codecs(s: State): Option<seq<string>>
  {
    var audio := if s.audioTrackId.Some? && s.audioConfig.Some?
                 then ["mp4a.40." + Digits(s.audioConfig.value.audioObjectType)] else [];
    if s.videoTrackId.Some? && s.videoConfig.Some? then
      match VideoCodec(s.videoConfig.value)
      case None => None
      case Some(v) => Some([v] + audio)
    else Some(audio)
  }

  function Finish(s: State, emissions: seq<Emission>): StepResult
  {
    match s.initSegment
    case None => StepResult(s, Failed("no init segment"))
    case Some(init) =>
      match Codecs(s)
      case None => StepResult(s, Failed("parameter set too short"))
      case Some(codecs) => StepResult(s, Emitted(init, emissions, codecs))
  }

  function StepMpegTs(s: State, d: seq<byte>): StepResult
  {
    var streams := MpegTs.Demux(d);
    var a := AudioInputOf(s.track, streams);
    var v := VideoInputOf(s.track, streams);
    StepTs(s, a, v)
  }

  function StepTs(s: State, a: AudioInput, v: VideoInput): StepResult
  {
    var declared := Declare(WithVideoConfig(WithAudioConfig(s, a), v));
    var (s1, e1) := VideoTurn(declared, v);
    var (s2, e2) := AudioTurn(s1, a);
    Finish(s2, e1 + e2)
  }

  /** The first ADTS segment fixes the configuration and builds the init segment, whatever was there before. */
  function DeclareAudioOnly(s: State, f: Adts.AdtsFrame): State
  {
    if s.audioConfig.Some? then s
    else
      var c := ConfigOfFrame(f);
      s.(audioConfig := Some(c), audioTrackId := Some(1), initSegment := Some(InitBytes(TrakBytes(Traks(None, Some(c))))))
  }

  function StepAdts(s: State, d: seq<byte>): StepResult
  {
    if s.track == Some(Video) then StepResult(s, Failed("no video track"))
    else
      var frames := Adts.Frames(d, 0);
      if frames == [] then StepResult(s, Failed("no frames"))
      else
        var declared := DeclareAudioOnly(s, frames[0]);
        var data := Adts.RawParts(d, frames);
        Finish(EmitAudio(declared, data), [Emission(Audio, AudioPiece(declared, data))])
  }

  /** One call of `transmux`. */
  function Step(s: State, d: seq<byte>): StepResult
  {
    var segment := WithoutId3(d);
    if IsMpegTs(segment) then StepMpegTs(s, segment)
    else if IsAdts(segment) then StepAdts(s, segment)
    else StepResult(s, Failed("unsupported segment format"))
  }

  /** The media segment of a call. */
  function MediaSegment(emissions: seq<Emission>): seq<byte>
  {
    MediaBytes(Pieces(emissions))
  }

  function Pieces(emissions: seq<Emission>): seq<Piece>
  {
    if emissions == [] then [] else [emissions[0].piece] + Pieces(emissions[1..])
  }
}
