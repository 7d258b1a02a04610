/** What the init segment of a transmuxer's first call says, told from the stream that was put in. */
module TransmuxInit {
  import opened Bytes
  import opened Strings
  import opened Wrappers
  import opened InitSegment
  import opened Transmuxer
  import opened TransmuxContent
  import AnnexB
  import Sps
  import SpsEscape
  import Pes
  import MpegTs
  import Adts
  import XmlText
  import I = InitReading

  /** A transmuxer that knows of no track yet. */
  predicate Unused(s: State)
  {
    s.initSegment.None? && s.videoConfig.None? && s.audioConfig.None?
  }

  predicate HasType(n: seq<byte>, kind: nat)
  {
    n != [] && (n[0] as int) % 32 == kind
  }

  /** Unit `i` is the first one of its type. */
  predicate FirstOf(nalus: seq<seq<byte>>, kind: nat, i: nat)
  {
    i < |nalus| && HasType(nalus[i], kind) && forall k :: 0 <= k < i ==> !HasType(nalus[k], kind)
  }

  lemma {:induction false} FirstNalIs(nalus: seq<seq<byte>>, kind: nat, i: nat)
    requires kind > 0 && FirstOf(nalus, kind, i)
    ensures FirstNal(nalus, kind) == Some(nalus[i])
    decreases i
  {
    if i > 0 {
      assert !HasType(nalus[0], kind);
      FirstNalIs(nalus[1..], kind, i - 1);
    }
  }

  // ------------------------------------------------------------------ from a call to its init segment

  /** The tracks the first call declares are those whose configuration it found. */
  lemma TsInit(s: State, m: Muxed, a: AudioInput, v: VideoInput)
    requires Unused(s) && m.Valid() && Step(s, m.Bytes()).outcome.Emitted?
    requires a == AudioInputOf(s.track, MpegTs.Demux(m.Bytes())) && v == VideoInputOf(s.track, MpegTs.Demux(m.Bytes()))
    ensures var r := Step(s, m.Bytes());
            var c := WithVideoConfig(WithAudioConfig(s, a), v);
            && r.state.videoConfig == c.videoConfig && r.state.audioConfig == c.audioConfig
            && (c.videoConfig.Some? || c.audioConfig.Some?)
            && r.outcome.init == InitBytes(TrakBytes(Traks(c.videoConfig, c.audioConfig)))
            && Codecs(Declare(c)) == Some(r.outcome.codecs)
  {
    hide MpegTs.TablesAre, MpegTs.PmtFollows, MpegTs.Demux, MpegTs.AllValid, MpegTs.Segment, AudioInputOf, VideoInputOf, WithoutId3,
         IsMpegTs, InitBytes, TrakBytes, Traks, VideoCodec, ConfigOfFrame, ConfigOfSets, FirstNal, VideoTurn, AudioTurn;
    MuxedIsTs(m);
    NoTag(m.Bytes());
    TurnsKeep(Declare(WithVideoConfig(WithAudioConfig(s, a), v)), v, a);
  }

  lemma TurnsKeep(s: State, v: VideoInput, a: AudioInput)
    ensures var t := AudioTurn(VideoTurn(s, v).0, a).0;
            && t.videoConfig == s.videoConfig && t.audioConfig == s.audioConfig && t.initSegment == s.initSegment
            && Codecs(t) == Codecs(s)
  {
    hide VideoPiece, AudioPiece, Group, FrameDuration, VideoCodec;
    FrameDurationPositive(v.pts);
  }

  /** Three bytes as six hexadecimal digits behind `avc1.`. */
  predicate NamesAvc(name: string, profile: seq<byte>)
    requires |profile| == 3
  {
    && |name| == 11 && name[..5] == "avc1." && (forall c :: c in name[5..] ==> XmlText.IsHex(c))
    && forall k :: 0 <= k < 3 ==> XmlText.NumberIn(name[5 + 2 * k..7 + 2 * k], 16) == profile[k] as int
  }

  /** The object type in decimal behind `mp4a.40.`. */
  predicate NamesAac(name: string, objectType: nat)
  {
    && |name| > 8 && name[..8] == "mp4a.40." && (forall c :: c in name[8..] ==> IsDigit(c))
    && Number(name[8..]) == objectType
  }

  lemma Hex2Read(b: byte)
    ensures |Hex2(b)| == 2 && (forall c :: c in Hex2(b) ==> XmlText.IsHex(c)) && XmlText.NumberIn(Hex2(b), 16) == b as int
  {
    var s, n := Hex2(b), b as int;
    HexDigitRead(n / 16);
    HexDigitRead(n % 16);
    hide HexDigit, XmlText.HexValue, XmlText.IsHex;
    assert s[..1] == [s[0]] && s[..1][..0] == [];
    assert XmlText.NumberIn(s[..1], 16) == XmlText.HexValue(s[0]);
  }

  lemma HexDigitRead(n: nat)
    requires n < 16
    ensures XmlText.IsHex(HexDigit(n)) && XmlText.HexValue(HexDigit(n)) == n
  {
  }

  lemma VideoNamed(c: VideoTrackConfig)
    ensures VideoCodec(c).Some? <==> c.profileIdc.Some? && c.profileCompatibility.Some? && c.levelIdc.Some?
    ensures VideoCodec(c).Some? ==> NamesAvc(VideoCodec(c).value, ProfileBytes(c))
  {
    hide Hex2;
    if c.profileIdc.Some? && c.profileCompatibility.Some? && c.levelIdc.Some? {
      var p, q, l := c.profileIdc.value, c.profileCompatibility.value, c.levelIdc.value;
      Hex2Read(p);
      Hex2Read(q);
      Hex2Read(l);
      var name := VideoCodec(c).value;
      assert name == "avc1." + Hex2(p) + Hex2(q) + Hex2(l);
      assert name[5..7] == Hex2(p) && name[7..9] == Hex2(q) && name[9..11] == Hex2(l);
      assert name[5..] == Hex2(p) + Hex2(q) + Hex2(l);
    }
  }

  lemma AudioNamed(n: nat)
    ensures NamesAac("mp4a.40." + Digits(n), n)
  {
    DigitsBack(n);
    assert ("mp4a.40." + Digits(n))[8..] == Digits(n);
  }

  /** The codec names, video first. */
  lemma NamesDeclared(c: State)
    requires c.initSegment.None? && Codecs(Declare(c)).Some?
    ensures var codecs := Codecs(Declare(c)).value;
            && (c.videoConfig.Some? ==> codecs != [] && VideoCodec(c.videoConfig.value) == Some(codecs[0]))
            && (c.audioConfig.Some? ==> codecs != [] && codecs[|codecs| - 1] == "mp4a.40." + Digits(c.audioConfig.value.audioObjectType))
  {
    hide InitBytes, TrakBytes, Traks, VideoCodec, Digits;
  }

  // ------------------------------------------------------------------ video

  lemma FirstShown(v: VideoTrackConfig, a: Option<AudioTrackConfig>)
    ensures var shown := I.AllShown(I.TracksOf(Some(v), a));
            shown != [] && shown[0] == I.VideoTrack(1, v).Shown()
  {
    hide I.Track.Shown;
  }

  /** An init segment and codec names that show a player these parameter sets: the size and the profile that stand in the sequence
      parameter set, and the two sets byte for byte. */
  ghost predicate ShowsSets(init: seq<byte>, codecs: seq<string>, sps: seq<byte>, pps: seq<byte>)
  {
    var tracks := I.ReadInit(init);
    && |sps| >= 4 && tracks.Some? && tracks.value != [] && codecs != []
    && tracks.value[0] == I.Declared(1, 90000, I.VideoEntry(Sps.Info(sps).width % 0x1_0000, Sps.Info(sps).height % 0x1_0000,
                                                            sps[1..4], sps, pps))
    && NamesAvc(codecs[0], sps[1..4])
  }

  /** What is declared with a configuration. */
  lemma SetsShown(c: State, sps: seq<byte>, pps: seq<byte>, codecs: seq<string>)
    requires c.videoConfig == Some(ConfigOfSets(sps, pps)) && c.initSegment.None? && |sps| < 0x1_0000 && |pps| < 0x1_0000
    requires c.audioConfig.Some? ==> |c.audioConfig.value.audioSpecificConfig| < 200
    requires Codecs(Declare(c)) == Some(codecs) && |InitBytes(TrakBytes(Traks(c.videoConfig, c.audioConfig)))| < 0x1_0000_0000
    ensures ShowsSets(InitBytes(TrakBytes(Traks(c.videoConfig, c.audioConfig))), codecs, sps, pps)
  {
    hide InitBytes, TrakBytes, Traks, I.ReadInit, I.AllShown, I.TracksOf, Sps.Info, NamesAvc, Codecs, Declare, VideoCodec;
    var config := ConfigOfSets(sps, pps);
    I.DeclaredBack(c.videoConfig, c.audioConfig);
    FirstShown(config, c.audioConfig);
    NamesDeclared(c);
    VideoNamed(config);
    ProfileIs(sps, pps);
  }

  /** The first init segment shows a player the first sequence and picture parameter set of the stream. */
  lemma VideoDeclared(s: State, m: Muxed, pes: seq<Pes.Packet>, units: seq<AnnexB.Framed>, zeros: nat, i: nat, j: nat)
    requires Unused(s) && m.Valid() && CarriesVideo(m, pes, units, zeros) && s.track != Some(Audio)
    requires FirstOf(AnnexB.Nals(units), 7, i) && FirstOf(AnnexB.Nals(units), 8, j)
    requires |AnnexB.Nals(units)[i]| < 0x1_0000 && |AnnexB.Nals(units)[j]| < 0x1_0000
    requires Step(s, m.Bytes()).outcome.Emitted? && |Step(s, m.Bytes()).outcome.init| < 0x1_0000_0000
    ensures var o := Step(s, m.Bytes()).outcome; ShowsSets(o.init, o.codecs, AnnexB.Nals(units)[i], AnnexB.Nals(units)[j])
  {
    var a := AudioInputOf(s.track, MpegTs.Demux(m.Bytes()));
    var v := VideoInputOf(s.track, MpegTs.Demux(m.Bytes()));
    hide Step, MpegTs.Demux, AudioInputOf, VideoInputOf, CarriesVideo, Muxed.Valid, InitBytes, TrakBytes, Traks, ShowsSets, FirstNal, FirstOf,
         Codecs, Declare, ConfigOfFrame, ConfigOfSets, Muxed.Bytes, AnnexB.Nals, WithVideoConfig, WithAudioConfig;
    VideoInputBack(s.track, m, pes, units, zeros);
    Configured(s, a, v, i, j);
    TsInit(s, m, a, v);
    SetsShown(WithVideoConfig(WithAudioConfig(s, a), v), v.nalus[i], v.nalus[j], Step(s, m.Bytes()).outcome.codecs);
  }

  /** The configuration the call finds. */
  lemma Configured(s: State, a: AudioInput, v: VideoInput, i: nat, j: nat)
    requires Unused(s) && v.present && FirstOf(v.nalus, 7, i) && FirstOf(v.nalus, 8, j)
    ensures var c := WithVideoConfig(WithAudioConfig(s, a), v);
            && c.videoConfig == Some(ConfigOfSets(v.nalus[i], v.nalus[j])) && c.initSegment.None?
            && (c.audioConfig.Some? ==> |c.audioConfig.value.audioSpecificConfig| < 200)
  {
    hide FirstNal, FirstOf, ConfigOfSets, ConfigOfFrame;
    FirstNalIs(v.nalus, 7, i);
    FirstNalIs(v.nalus, 8, j);
    AudioSmall(s, a);
  }

  lemma AudioSmall(s: State, a: AudioInput)
    requires Unused(s)
    ensures var c := WithAudioConfig(s, a).audioConfig; c.Some? ==> |c.value.audioSpecificConfig| < 200
  {
  }

  lemma ProfileIs(sps: seq<byte>, pps: seq<byte>)
    ensures var c := ConfigOfSets(sps, pps);
            && (c.levelIdc.Some? <==> |sps| >= 4)
            && (|sps| >= 4 ==> ProfileBytes(c) == sps[1..4])
  {
    hide Sps.Info;
  }

  /** And when an encoder wrote that set, size and profile are those it wrote. */
  lemma EncodedSet(header: byte, p: Sps.Params, trailing: seq<Sps.bit>)
    requires Sps.Fits(p) && SpsEscape.NoRunWithin(Sps.Pack(Sps.Syntax(p) + trailing), SpsEscape.BytesOf(|Sps.Syntax(p)|))
    ensures var sps := [header] + SpsEscape.Escaped(Sps.Pack(Sps.Syntax(p) + trailing), 0);
            Sps.Info(sps) == Sps.Size(p) && |sps| >= 4 && sps[1..4] == [p.profileIdc, p.constraints, p.levelIdc]
  {
    hide Sps.Info, Sps.Fits, Sps.Size, SpsEscape.Escaped, SpsEscape.NoRunWithin;
    SpsEscape.SentSizeRecovered(header, p, trailing);
    SpsEscape.SentProfile(header, p, trailing);
  }

  // ------------------------------------------------------------------ audio

  /** The sampling frequencies of table 1.18 in ISO/IEC 14496-3: three families, halved again and again, and one more. */
  predicate StandsFor(index: nat, rate: nat)
  {
    if index < 12 then
      rate * (match index / 3 case 0 => 1 case 1 => 2 case 2 => 4 case _ => 8) == (match index % 3 case 0 => 96000 case 1 => 88200 case _ => 64000)
    else rate == if index == 12 then 7350 else 0
  }

  lemma RateStands(index: nat)
    ensures StandsFor(index, Adts.SampleRate(index))
  {
  }

  /** A track as a player learns of it, and the frame it was declared for. */
  predicate ShowsFrame(d: I.Declared, f: Adts.AacFrame)
  {
    && d.entry.AudioEntry? && |d.entry.audioSpecificConfig| == 2
    && var c0: int, c1: int := d.entry.audioSpecificConfig[0], d.entry.audioSpecificConfig[1];
    && c0 / 8 == f.audioObjectType && c0 % 8 * 2 + c1 / 128 == f.samplingFrequencyIndex && c1 / 8 % 16 == f.channelConfiguration
    && d.entry.channels == f.channelConfiguration
    && StandsFor(f.samplingFrequencyIndex, d.timescale) && d.entry.sampleRate == d.timescale % 0x1_0000
  }

  lemma FrameShown(id: nat, f: Adts.AacFrame, o: nat)
    requires f.Valid()
    ensures ShowsFrame(I.AudioTrack(id, ConfigOfFrame(f.At(o))).Shown(), f)
  {
    hide Adts.SampleRate, U32;
    RateStands(f.samplingFrequencyIndex);
    I.RateKept(f.samplingFrequencyIndex);
    Adts.ConfigBack(f.At(o));
    hide Adts.AudioSpecificConfig, StandsFor;
  }

  /** The last track is that of a frame, and so is the last codec name. */
  ghost predicate LastShowsFrame(init: seq<byte>, codecs: seq<string>, f: Adts.AacFrame)
  {
    var tracks := I.ReadInit(init);
    && tracks.Some? && tracks.value != [] && codecs != []
    && ShowsFrame(tracks.value[|tracks.value| - 1], f) && NamesAac(codecs[|codecs| - 1], f.audioObjectType)
  }

  lemma FrameDeclared(c: State, f: Adts.AacFrame, o: nat, codecs: seq<string>)
    requires f.Valid() && c.audioConfig == Some(ConfigOfFrame(f.At(o))) && c.initSegment.None?
    requires c.videoConfig.Some? ==> I.SetsFit(c.videoConfig.value)
    requires Codecs(Declare(c)) == Some(codecs) && |InitBytes(TrakBytes(Traks(c.videoConfig, c.audioConfig)))| < 0x1_0000_0000
    ensures LastShowsFrame(InitBytes(TrakBytes(Traks(c.videoConfig, c.audioConfig))), codecs, f)
  {
    hide InitBytes, TrakBytes, Traks, I.ReadInit, I.AllShown, I.TracksOf, ShowsFrame, NamesAac, Codecs, Declare, ConfigOfFrame, Digits,
         Adts.AacFrame.Valid;
    var config := ConfigOfFrame(f.At(o));
    SmallConfig(f, o);
    I.DeclaredBack(c.videoConfig, c.audioConfig);
    I.LastShown(c.videoConfig, config);
    FrameShown(if c.videoConfig.Some? then 2 else 1, f, o);
    NamesDeclared(c);
    AudioNamed(f.audioObjectType);
    ObjectType(f, o);
  }

  /** The first init segment shows a player the object type, the frequency and the channels of the first AAC frame. */
  lemma AudioDeclared(s: State, m: Muxed, pes: seq<Pes.Packet>, frames: seq<Adts.AacFrame>)
    requires Unused(s) && m.Valid() && CarriesAudio(m, pes, frames) && frames != [] && s.track != Some(Video)
    requires Step(s, m.Bytes()).outcome.Emitted? && |Step(s, m.Bytes()).outcome.init| < 0x1_0000_0000
    requires Step(s, m.Bytes()).state.videoConfig.Some? ==> I.SetsFit(Step(s, m.Bytes()).state.videoConfig.value)
    ensures var o := Step(s, m.Bytes()).outcome; LastShowsFrame(o.init, o.codecs, frames[0])
  {
    var a := AudioInputOf(s.track, MpegTs.Demux(m.Bytes()));
    var v := VideoInputOf(s.track, MpegTs.Demux(m.Bytes()));
    hide Step, MpegTs.Demux, AudioInputOf, VideoInputOf, CarriesAudio, Muxed.Valid, InitBytes, TrakBytes, Traks, FirstNal, LastShowsFrame,
         Codecs, Declare, ConfigOfSets, ConfigOfFrame, Adts.AacFrame.Valid, Muxed.Bytes, I.SetsFit, Adts.AllAt, Adts.Payloads;
    AudioInputBack(s.track, m, pes, frames);
    FirstFrame(m, pes, frames);
    TsInit(s, m, a, v);
    FrameDeclared(WithVideoConfig(WithAudioConfig(s, a), v), frames[0], 0, Step(s, m.Bytes()).outcome.codecs);
  }

  lemma FirstFrame(m: Muxed, pes: seq<Pes.Packet>, frames: seq<Adts.AacFrame>)
    requires frames != [] && m.Valid() && CarriesAudio(m, pes, frames)
    ensures frames[0].Valid() && Adts.AllAt(frames, 0) != [] && Adts.AllAt(frames, 0)[0] == frames[0].At(0)
  {
    hide Muxed.Valid;
    assert frames[0] in frames;
  }

  lemma ObjectType(f: Adts.AacFrame, o: nat)
    ensures ConfigOfFrame(f.At(o)).audioObjectType == f.audioObjectType
  {
  }

  /** The same for an ADTS segment. */
  lemma AdtsDeclared(s: State, frames: seq<Adts.AacFrame>)
    requires Unused(s) && (forall f :: f in frames ==> f.Valid()) && frames != [] && s.track != Some(Video) && s.videoTrackId.None?
    requires Step(s, Adts.Encode(frames)).outcome.Emitted? && |Step(s, Adts.Encode(frames)).outcome.init| < 0x1_0000_0000
    ensures var o := Step(s, Adts.Encode(frames)).outcome;
            var tracks := I.ReadInit(o.init);
            && tracks.Some? && |tracks.value| == 1 && |o.codecs| == 1
            && ShowsFrame(tracks.value[0], frames[0]) && NamesAac(o.codecs[0], frames[0].audioObjectType)
  {
    var d := Adts.Encode(frames);
    AdtsStarts(frames);
    NoTag(d);
    Adts.FramesRecovered(frames);
    assert frames[0] in frames;
    assert Adts.AllAt(frames, 0)[0] == frames[0].At(0);
    hide Adts.Frames, Adts.RawParts, Adts.Encode, Adts.AacFrame.Valid, WithoutId3, IsMpegTs, IsAdts, StepMpegTs, InitBytes, TrakBytes, Traks,
         I.ReadInit, ShowsFrame, NamesAac, ConfigOfFrame, Digits, AudioPiece, Adts.AllAt, Adts.Payloads, Adts.SampleRate, StandsFor,
         Adts.AudioSpecificConfig, MediaSegment;
    var config := ConfigOfFrame(frames[0].At(0));
    SmallConfig(frames[0], 0);
    I.DeclaredBack(None, Some(config));
    AloneShown(config);
    FrameShown(1, frames[0], 0);
    AudioNamed(frames[0].audioObjectType);
    ObjectType(frames[0], 0);
  }

  lemma SmallConfig(f: Adts.AacFrame, o: nat)
    ensures |ConfigOfFrame(f.At(o)).audioSpecificConfig| == 2
  {
  }

  lemma AloneShown(c: AudioTrackConfig)
    ensures I.AllShown(I.TracksOf(None, Some(c))) == [I.AudioTrack(1, c).Shown()]
  {
    hide I.Track.Shown;
    var ts := I.TracksOf(None, Some(c));
    assert ts == [I.AudioTrack(1, c)] && ts[1..] == [];
    assert I.AllShown([]) == [];
  }

  /** What begins neither like a transport packet nor like an AAC frame nor like a tag is refused, and changes nothing. */
  lemma OthersRefused(s: State, d: seq<byte>)
    requires d == [] || (d[0] != 0x47 && d[0] != 0x49 && (d[0] != 0xFF || |d| < 2 || d[1] < 0xF0))
    ensures Step(s, d).outcome.Failed? && Step(s, d).state == s
  {
  }
}
