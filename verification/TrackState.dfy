/** The transmuxer as it runs: a state object whose fields every call updates in place. */
module TrackState {
  import opened Bytes
  import opened Wrappers
  import AnnexB
  import Sps
  import Pes
  import MpegTs
  import Adts
  import opened Mp4
  import opened InitSegment
  import opened Transmuxer

  datatype TransmuxResult = TransmuxResult(initSegment: seq<byte>, mediaSegment: seq<byte>, codecs: seq<string>)

  /** What a caller sees of an outcome. */
  predicate Agrees(o: Outcome, r: Result<TransmuxResult>)
  {
    match o
    case Failed(_) => r.Err?
    case Emitted(init, emissions, codecs) => r == Ok(TransmuxResult(init, MediaSegment(emissions), codecs))
  }

  /** The fragment headers an ADTS segment leads to stay below the 32-bit size limit of a box. */
  predicate AdtsSized(s: State, d: seq<byte>)
  {
    var frames := Adts.Frames(d, 0);
    s.track != Some(Video) && frames != [] ==>
      Sized(AudioPiece(DeclareAudioOnly(s, frames[0]), Adts.RawParts(d, frames)).o)
  }

  predicate TsSized(s: State, a: AudioInput, v: VideoInput)
  {
    var declared := Declared(s, a, v);
    && (EmitsVideo(declared, v) ==> Sized(VideoPiece(declared, v).o))
    && (EmitsAudio(VideoTurn(declared, v).0, a) ==> Sized(AudioPiece(VideoTurn(declared, v).0, a.data).o))
  }

  function Declared(s: State, a: AudioInput, v: VideoInput): State
  {
    Declare(WithVideoConfig(WithAudioConfig(s, a), v))
  }

  predicate MpegTsSized(s: State, d: seq<byte>)
  {
    var streams := MpegTs.Demux(d);
    TsSized(s, AudioInputOf(s.track, streams), VideoInputOf(s.track, streams))
  }

  predicate SegmentSized(s: State, d: seq<byte>)
  {
    var segment := WithoutId3(d);
    if IsMpegTs(segment) then MpegTsSized(s, segment) else IsAdts(segment) ==> AdtsSized(s, segment)
  }

  class Transmuxing {
    const track: Option<TransmuxTrack>
    var initSegment: Option<seq<byte>>
    var sequenceNumber: nat
    var audioConfig: Option<AudioTrackConfig>
    var videoConfig: Option<VideoTrackConfig>
    var audioDecodeTime: nat
    var videoDecodeTime: nat
    var audioTrackId: Option<nat>
    var videoTrackId: Option<nat>

    /** The state as a value. */
    function View(): State
      reads this
    {
      State(track, initSegment, sequenceNumber, audioConfig, videoConfig, audioDecodeTime, videoDecodeTime,
            audioTrackId, videoTrackId)
    }

    constructor (track: Option<TransmuxTrack>)
      ensures View() == Initial(track)
    {
      this.track := track;
      initSegment := None;
      sequenceNumber := 1;
      audioConfig := None;
      videoConfig := None;
      audioDecodeTime := 0;
      videoDecodeTime := 0;
      audioTrackId := None;
      videoTrackId := None;
    }

    method BuildInitSegment(traks: seq<seq<byte>>)
      modifies this`initSegment
      ensures initSegment == Some(InitBytes(traks))
    {
      var moovBox := Moov(traks);
      initSegment := Some(Ftyp() + moovBox);
    }

    method EmitAudioFragment(data: seq<seq<byte>>) returns (bytes: seq<byte>)
      requires Sized(AudioPiece(View(), data).o)
      modifies this`sequenceNumber, this`audioDecodeTime
      ensures View() == EmitAudio(old(View()), data)
      ensures bytes == AudioPiece(old(View()), data).Bytes()
    {
      hide MoofBytes, MdatBytes, MoofSize;
      var samples := CollectSamples(data);
      var rawMediaData := ConcatBuffers(data);
      var o := MoofOptions(sequenceNumber, IdOr0(audioTrackId), audioDecodeTime, samples);
      sequenceNumber := sequenceNumber + 1;
      audioDecodeTime := audioDecodeTime + |data| * 1024;
      bytes := WriteFragment(o, rawMediaData);
    }

    method EmitVideoFragment(v: VideoInput, accessUnits: seq<AccessUnit>) returns (bytes: seq<byte>)
      requires accessUnits == Group(v.nalus, [])
      requires Sized(VideoPiece(View(), v).o)
      modifies this`sequenceNumber, this`videoDecodeTime
      ensures View() == EmitVideo(old(View()), v)
      ensures bytes == VideoPiece(old(View()), v).Bytes()
    {
      hide MoofBytes, MdatBytes, MoofSize, FrameDuration, Group;
      FrameDurationPositive(v.pts);
      var frameDuration := ComputeFrameDuration(v.pts);
      var samples, rawData := BuildVideoSamples(accessUnits, v.pts, frameDuration);
      var o := MoofOptions(sequenceNumber, IdOr0(videoTrackId), videoDecodeTime, samples);
      sequenceNumber := sequenceNumber + 1;
      videoDecodeTime := videoDecodeTime + |accessUnits| * frameDuration;
      bytes := WriteFragment(o, rawData);
    }

    /** The init segment and the codec names, or the error that reading one of them raises. */
    method Conclude(ghost emissions: seq<Emission>, mediaSegment: seq<byte>) returns (r: Result<TransmuxResult>)
      requires mediaSegment == MediaSegment(emissions)
      ensures Agrees(Finish(View(), emissions).outcome, r)
    {
      hide Codecs;
      if initSegment.None? { return Err("no init segment"); }
      var codecs := Codecs(View());
      if codecs.None? { return Err("parameter set too short"); }
      r := Ok(TransmuxResult(initSegment.value, mediaSegment, codecs.value));
    }

    method TransmuxAdts(data: seq<byte>) returns (r: Result<TransmuxResult>)
      requires AdtsSized(View(), data)
      modifies this
      ensures View() == StepAdts(old(View()), data).state
      ensures Agrees(StepAdts(old(View()), data).outcome, r)
    {
      hide AudioPiece, Codecs, ConfigOfFrame, InitBytes, Sized, Traks, TrakBytes, Piece.Bytes;
      if track == Some(Video) { return Err("no video track"); }
      var frames := Adts.ParseAdtsFrames(data);
      if frames == [] { return Err("no frames"); }
      var firstFrame := frames[0];
      if audioConfig.None? {
        audioConfig := Some(ConfigOfFrame(firstFrame));
        audioTrackId := Some(1);
        BuildInitSegment(TrakBytes(Traks(None, audioConfig)));
      }
      ghost var declared := View();
      assert declared == DeclareAudioOnly(old(View()), firstFrame);
      var parts := CutFrames(data, frames);
      var bytes := EmitAudioFragment(parts);
      ghost var emissions := [Emission(Audio, AudioPiece(declared, parts))];
      OnePiece(emissions[0]);
      r := Conclude(emissions, bytes);
    }

    /** The audio side of a segment; sets the configuration from the first frame ever seen. */
    method ProcessAudio(streams: seq<MpegTs.DemuxedStream>) returns (a: AudioInput)
      modifies this`audioConfig
      ensures a == AudioInputOf(track, streams)
      ensures View() == WithAudioConfig(old(View()), a)
    {
      hide ConfigOfFrame, Pes.Elementary, Adts.Frames, Adts.RawParts, MpegTs.FirstOfType;
      a := AudioInput(false, [], []);
      if track == Some(Video) { return; }
      var audioStream := MpegTs.FirstOfType(streams, 0x0F);
      if audioStream.None? { return; }
      var pesData := ConcatBuffers(audioStream.value.data);
      var esData := Pes.ExtractElementaryStream(pesData);
      var audioFrames := Adts.ParseAdtsFrames(esData);
      if audioFrames != [] && audioConfig.None? {
        audioConfig := Some(ConfigOfFrame(audioFrames[0]));
      }
      var parts := CutFrames(esData, audioFrames);
      var audioRawData := ConcatBuffers(parts);
      Adts.FramesAreDisjoint(esData, 0);
      var recut := RecutFrames(esData, audioFrames, audioRawData);
      a := AudioInput(true, audioFrames, recut);
    }

    /** The video side; sets the configuration from the first parameter sets ever seen. */
    method ProcessVideo(streams: seq<MpegTs.DemuxedStream>) returns (v: VideoInput)
      modifies this`videoConfig
      ensures v == VideoInputOf(track, streams)
      ensures View() == WithVideoConfig(old(View()), v)
    {
      hide Pes.Elementary, AnnexB.Units, FirstNal, MpegTs.FirstOfType, Pes.PtsList, Sps.Info;
      v := VideoInput(false, [], []);
      if track == Some(Audio) { return; }
      var videoStream := MpegTs.FirstOfType(streams, 0x1B);
      if videoStream.None? { return; }
      var pesData := ConcatBuffers(videoStream.value.data);
      var videoPtsList := Pes.CollectPts(pesData);
      var esData := Pes.ExtractElementaryStream(pesData);
      var videoNalus := AnnexB.ExtractH264Nalus(esData);
      v := VideoInput(true, videoNalus, videoPtsList);
      if videoConfig.None? {
        var sps := FirstNal(videoNalus, 7);
        var pps := FirstNal(videoNalus, 8);
        if sps.Some? && pps.Some? {
          var info := Sps.ParseSpsInfo(sps.value);
          videoConfig := Some(VideoTrackConfig(info.width, info.height, sps.value, pps.value,
                                               ByteAt(sps.value, 1), ByteAt(sps.value, 2), ByteAt(sps.value, 3)));
        }
      }
    }

    method DeclareTracks()
      modifies this`initSegment, this`audioTrackId, this`videoTrackId
      ensures View() == Declare(old(View()))
    {
      hide InitBytes, VideoMdia, AudioMdia, Trak.Bytes;
      if initSegment.None? && (audioConfig.Some? || videoConfig.Some?) {
        var traks: seq<seq<byte>> := [];
        ghost var ts: seq<Trak> := [];
        if videoConfig.Some? {
          videoTrackId := Some(|traks| + 1);
          var c := videoConfig.value;
          var t := Trak(1, c.width, c.height, 0, VideoMdia(c));
          traks := traks + [t.Bytes()];
          ts := ts + [t];
        }
        if audioConfig.Some? {
          audioTrackId := Some(|traks| + 1);
          var c := audioConfig.value;
          var t := Trak(|traks| + 1, 0, 0, if c.channelConfiguration > 0 then 0x100 else 0, AudioMdia(c));
          traks := traks + [t.Bytes()];
          ts := ts + [t];
        }
        assert ts == Traks(videoConfig, audioConfig);
        assert traks == TrakBytes(ts) by { TrakBytesOf(ts); }
        BuildInitSegment(traks);
      }
    }

    method TransmuxMpegTs(data: seq<byte>) returns (r: Result<TransmuxResult>)
      requires MpegTsSized(View(), data)
      modifies this
      ensures View() == StepMpegTs(old(View()), data).state
      ensures Agrees(StepMpegTs(old(View()), data).outcome, r)
    {
      hide AudioPiece, VideoPiece, Codecs, Sized, Piece.Bytes, MpegTs.Demux, AudioInputOf, VideoInputOf, Declare,
           WithAudioConfig, WithVideoConfig, EmitVideo, EmitAudio, Group, Finish, Agrees;
      var streams := MpegTs.DemuxTsSegment(data);
      var a := ProcessAudio(streams);
      var v := ProcessVideo(streams);
      DeclareTracks();
      ghost var declared := View();
      r := EmitTs(a, v);
      FinishKeepsState(AudioTurn(VideoTurn(declared, v).0, a).0,
                       VideoTurn(declared, v).1 + AudioTurn(VideoTurn(declared, v).0, a).1);
    }

    /** The fragments of the declared tracks, video first. */
    method EmitTs(a: AudioInput, v: VideoInput) returns (r: Result<TransmuxResult>)
      requires EmitsVideo(View(), v) ==> Sized(VideoPiece(View(), v).o)
      requires var s := VideoTurn(View(), v).0; EmitsAudio(s, a) ==> Sized(AudioPiece(s, a.data).o)
      modifies this
      ensures var (s1, e1) := VideoTurn(old(View()), v);
              var (s2, e2) := AudioTurn(s1, a);
              View() == s2 && Agrees(Finish(s2, e1 + e2).outcome, r)
    {
      hide AudioPiece, VideoPiece, Codecs, Sized, Piece.Bytes, EmitVideo, EmitAudio, Group, Finish, Agrees;
      var fragments: seq<seq<byte>> := [];
      ghost var emissions: seq<Emission> := [];
      var accessUnits := GroupAccessUnits(v.nalus);
      if videoConfig.Some? && videoTrackId.Some? && |accessUnits| > 0 {
        ghost var p := VideoPiece(View(), v);
        var bytes := EmitVideoFragment(v, accessUnits);
        AddPiece(emissions, fragments, Emission(Video, p));
        fragments := fragments + [bytes];
        emissions := [Emission(Video, p)];
        assert [] + emissions == emissions;
      }
      assert (View(), emissions) == VideoTurn(old(View()), v);
      ghost var e1 := emissions;
      if audioConfig.Some? && audioTrackId.Some? && a.frames != [] {
        ghost var p := AudioPiece(View(), a.data);
        var bytes := EmitAudioFragment(a.data);
        AddPiece(emissions, fragments, Emission(Audio, p));
        fragments := fragments + [bytes];
        emissions := emissions + [Emission(Audio, p)];
        assert emissions == e1 + [Emission(Audio, p)];
      } else {
        assert emissions == e1 + [];
      }
      var mediaSegment := ConcatBuffers(fragments);
      r := Conclude(emissions, mediaSegment);
    }

    /** One call: strips ID3 tags, then goes by the first bytes. */
    method Transmux(data: seq<byte>) returns (r: Result<TransmuxResult>)
      requires SegmentSized(View(), data)
      modifies this
      ensures View() == Step(old(View()), data).state
      ensures Agrees(Step(old(View()), data).outcome, r)
    {
      hide StepMpegTs, StepAdts, MpegTsSized, AdtsSized;
      var segment := SkipId3Tags(data);
      if IsMpegTs(segment) {
        r := TransmuxMpegTs(segment);
      } else if IsAdts(segment) {
        r := TransmuxAdts(segment);
      } else {
        r := Err("unsupported segment format");
      }
    }
  }

  lemma FinishKeepsState(s: State, es: seq<Emission>)
    ensures Finish(s, es).state == s
  {
  }

  lemma TrakBytesOf(ts: seq<Trak>)
    ensures |ts| == 0 ==> TrakBytes(ts) == []
    ensures |ts| == 1 ==> TrakBytes(ts) == [ts[0].Bytes()]
    ensures |ts| == 2 ==> TrakBytes(ts) == [ts[0].Bytes(), ts[1].Bytes()]
  {
    hide Trak.Bytes;
    if |ts| == 2 { assert TrakBytes(ts[1..]) == [ts[1].Bytes()]; }
  }

  lemma OnePiece(e: Emission)
    ensures MediaSegment([e]) == e.piece.Bytes()
  {
    hide Piece.Bytes;
    assert [e][1..] == [];
    assert Pieces([e]) == [e.piece] + Pieces([]);
    assert MediaBytes([e.piece]) == e.piece.Bytes() + MediaBytes([]);
  }

  /** A fragment appended to the list is a piece appended to the segment. */
  lemma {:induction false} AddPiece(es: seq<Emission>, fragments: seq<seq<byte>>, e: Emission)
    requires Concat(fragments) == MediaSegment(es)
    ensures Concat(fragments + [e.piece.Bytes()]) == MediaSegment(es + [e])
  {
    hide Piece.Bytes;
    ConcatSnoc(fragments, e.piece.Bytes());
    MediaSnoc(es, e);
  }

  lemma {:induction false} MediaSnoc(es: seq<Emission>, e: Emission)
    ensures MediaSegment(es + [e]) == MediaSegment(es) + e.piece.Bytes()
  {
    hide Piece.Bytes;
    if es == [] {
      assert es + [e] == [e];
      OnePiece(e);
    } else {
      assert (es + [e])[1..] == es[1..] + [e];
      MediaSnoc(es[1..], e);
    }
  }

  method CollectSamples(data: seq<seq<byte>>) returns (samples: seq<SampleEntry>)
    ensures samples == AudioSamples(data)
  {
    samples := [];
    for i := 0 to |data|
      invariant samples + AudioSamples(data[i..]) == AudioSamples(data)
    {
      assert data[i..][1..] == data[i + 1..];
      Append(samples, SampleEntry(1024, |data[i]|, None, None), AudioSamples(data[i + 1..]));
      samples := samples + [SampleEntry(1024, |data[i]|, None, None)];
    }
    assert samples + [] == samples;
  }

  /** The raw data behind the header of every frame. */
  method CutFrames(data: seq<byte>, frames: seq<Adts.AdtsFrame>) returns (parts: seq<seq<byte>>)
    ensures parts == Adts.RawParts(data, frames)
  {
    hide Adts.Raw;
    parts := [];
    for i := 0 to |frames|
      invariant parts + Adts.RawParts(data, frames[i..]) == Adts.RawParts(data, frames)
    {
      assert frames[i..][1..] == frames[i + 1..];
      Append(parts, Adts.Raw(data, frames[i]), Adts.RawParts(data, frames[i + 1..]));
      parts := parts + [Adts.Raw(data, frames[i])];
    }
    assert parts + [] == parts;
  }

  /** The joined raw data cut again, by frame length less header size: the same parts. */
  method RecutFrames(data: seq<byte>, frames: seq<Adts.AdtsFrame>, audioRawData: seq<byte>) returns (parts: seq<seq<byte>>)
    requires audioRawData == Concat(Adts.RawParts(data, frames))
    requires Adts.InOrder(data, 0, frames)
    ensures parts == Adts.RawParts(data, frames)
  {
    hide Adts.Raw;
    parts := [];
    var offset := 0;
    ghost var o: nat := 0;
    assert frames[0..] == frames;
    assert audioRawData[0..] == audioRawData;
    for i := 0 to |frames|
      invariant parts + Adts.RawParts(data, frames[i..]) == Adts.RawParts(data, frames)
      invariant Adts.InOrder(data, o, frames[i..])
      invariant 0 <= offset <= |audioRawData|
      invariant audioRawData[offset..] == Concat(Adts.RawParts(data, frames[i..]))
    {
      var frame := frames[i];
      var size := frame.frameLength - frame.headerSize;
      ghost var raw := Adts.Raw(data, frame);
      assert frames[i..][0] == frame && frames[i..][1..] == frames[i + 1..];
      RawSize(data, frame);
      ghost var rest := Concat(Adts.RawParts(data, frames[i + 1..]));
      assert audioRawData[offset..] == raw + rest;
      assert audioRawData[offset..offset + size] == audioRawData[offset..][..size] == raw;
      assert audioRawData[offset + size..] == audioRawData[offset..][size..] == rest;
      Append(parts, raw, Adts.RawParts(data, frames[i + 1..]));
      parts := parts + [audioRawData[offset..offset + size]];
      offset := offset + size;
      o := frame.offset + frame.frameLength;
    }
    assert parts + [] == parts;
  }

  lemma RawSize(data: seq<byte>, f: Adts.AdtsFrame)
    requires Adts.Complete(data, f)
    ensures |Adts.Raw(data, f)| == f.frameLength - f.headerSize
  {
  }

  /** The length-prefixed NAL units of one access unit. */
  method PrefixNalus(nalus: seq<seq<byte>>) returns (auParts: seq<seq<byte>>, auSize: nat)
    ensures auParts == Prefixed(nalus) && auSize == |Concat(auParts)|
  {
    hide LengthPrefixed;
    auParts, auSize := [], 0;
    for i := 0 to |nalus|
      invariant auParts + Prefixed(nalus[i..]) == Prefixed(nalus)
      invariant auSize == |Concat(auParts)|
    {
      var nalu := nalus[i];
      var lengthPrefixed := LengthPrefix(nalu);
      assert nalus[i..][1..] == nalus[i + 1..];
      Append(auParts, lengthPrefixed, Prefixed(nalus[i + 1..]));
      ConcatSnoc(auParts, lengthPrefixed);
      auParts := auParts + [lengthPrefixed];
      auSize := auSize + |lengthPrefixed|;
    }
    assert auParts + [] == auParts;
  }

  method LengthPrefix(nalu: seq<byte>) returns (bytes: seq<byte>)
    ensures bytes == LengthPrefixed(nalu)
  {
    var b := new byte[4 + |nalu|](_ => 0);
    var w := U32(|nalu|);
    b[0] := w / 0x100_0000;
    b[1] := w / 0x1_0000 % 256;
    b[2] := w / 0x100 % 256;
    b[3] := w % 256;
    forall k | 0 <= k < |nalu| {
      b[4 + k] := nalu[k];
    }
    bytes := b[..];
    assert bytes[..4] == BE32(|nalu|);
    assert bytes[4..] == nalu;
  }

  method BuildVideoSamples(accessUnits: seq<AccessUnit>, pts: seq<int>, frameDuration: nat)
    returns (samples: seq<SampleEntry>, rawData: seq<byte>)
    ensures samples == VideoSamples(accessUnits, 0, pts, frameDuration)
    ensures rawData == Concat(UnitsData(accessUnits))
  {
    hide VideoSample, UnitBytes;
    samples := [];
    var naluParts: seq<seq<byte>> := [];
    for auIdx := 0 to |accessUnits|
      invariant samples + VideoSamples(accessUnits[auIdx..], auIdx, pts, frameDuration)
             == VideoSamples(accessUnits, 0, pts, frameDuration)
      invariant Concat(naluParts) + Concat(UnitsData(accessUnits[auIdx..])) == Concat(UnitsData(accessUnits))
    {
      var au := accessUnits[auIdx];
      var auParts, auSize := PrefixNalus(au.nalus);
      UnitsDataStep(accessUnits, auIdx);
      var sample := SampleOf(au, auIdx, pts, frameDuration, auSize);
      assert accessUnits[auIdx..][1..] == accessUnits[auIdx + 1..];
      Append(samples, sample, VideoSamples(accessUnits[auIdx + 1..], auIdx + 1, pts, frameDuration));
      samples := samples + [sample];
      ConcatAppend(naluParts, auParts);
      assert (Concat(naluParts) + UnitBytes(au)) + Concat(UnitsData(accessUnits[auIdx + 1..]))
          == Concat(naluParts) + (UnitBytes(au) + Concat(UnitsData(accessUnits[auIdx + 1..])));
      naluParts := naluParts + auParts;
    }
    assert samples + [] == samples;
    assert Concat(naluParts) + [] == Concat(naluParts);
    rawData := ConcatBuffers(naluParts);
  }

  lemma UnitsDataStep(aus: seq<AccessUnit>, k: nat)
    requires k < |aus|
    ensures Concat(UnitsData(aus[k..])) == UnitBytes(aus[k]) + Concat(UnitsData(aus[k + 1..]))
    ensures UnitBytes(aus[k]) == Concat(Prefixed(aus[k].nalus))
  {
    hide Prefixed;
    assert aus[k..][1..] == aus[k + 1..];
    assert UnitsData(aus[k..])[1..] == UnitsData(aus[k + 1..]);
  }

  method SampleOf(au: AccessUnit, auIdx: nat, pts: seq<int>, frameDuration: nat, auSize: nat) returns (s: SampleEntry)
    requires auSize == |UnitBytes(au)|
    ensures s == VideoSample(au, auIdx, pts, frameDuration)
  {
    var basePts := Least(pts);
    var baseDts := basePts;
    s := SampleEntry(frameDuration, auSize, Some(if au.isIdr then 0x0200_0000 else 0x0101_0000),
                     Some(if auIdx < |pts| then pts[auIdx] - (baseDts + auIdx * frameDuration) else 0));
  }
}
