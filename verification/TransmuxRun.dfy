/** What holds over every run of the transmuxer, and what its fragments carry. */
module TransmuxRun {
  import opened Bytes
  import opened Strings
  import opened Wrappers
  import AnnexB
  import Pes
  import MpegTs
  import Adts
  import opened Mp4
  import opened InitSegment
  import opened Transmuxer

  /** The state behind a run and all that was handed out, in order. */
  datatype Trace = Trace(state: State, emissions: seq<Emission>)

  /** Calls with the given segments, one after the other; a failed call hands out nothing. */
  function Run(s: State, inputs: seq<seq<byte>>): Trace
    decreases |inputs|
  {
    if inputs == [] then Trace(s, [])
    else
      var n := |inputs| - 1;
      var before := Run(s, inputs[..n]);
      var r := Step(before.state, inputs[n]);
      Trace(r.state, before.emissions + (if r.outcome.Emitted? then r.outcome.emissions else []))
  }

  // ------------------------------------------------------------------ sequence numbers and decode times

  function Ticks(samples: seq<SampleEntry>): int
  {
    if samples == [] then 0 else samples[0].duration + Ticks(samples[1..])
  }

  /** The durations of all samples of one track among the emissions. */
  function TrackTicks(es: seq<Emission>, kind: TransmuxTrack): int
  {
    if es == [] then 0
    else
      var n := |es| - 1;
      TrackTicks(es[..n], kind) + (if es[n].kind == kind then Ticks(es[n].piece.o.samples) else 0)
  }

  lemma {:induction false} AudioTicks(data: seq<seq<byte>>)
    ensures Ticks(AudioSamples(data)) == |data| * 1024
  {
    if data != [] { AudioTicks(data[1..]); }
  }

  lemma {:induction false} VideoTicks(aus: seq<AccessUnit>, k: nat, pts: seq<int>, d: nat)
    ensures Ticks(VideoSamples(aus, k, pts, d)) == |aus| * d
  {
    hide VideoSample;
    if aus != [] {
      VideoTicks(aus[1..], k + 1, pts, d);
      assert VideoSample(aus[0], k, pts, d).duration == d by { SampleDuration(aus[0], k, pts, d); }
      assert |aus| * d == d + |aus[1..]| * d by { assert |aus| == 1 + |aus[1..]|; Distribute(|aus[1..]|, d); }
    }
  }

  lemma SampleDuration(au: AccessUnit, k: nat, pts: seq<int>, d: nat)
    ensures VideoSample(au, k, pts, d).duration == d
  {
  }

  lemma Distribute(n: int, d: int)
    ensures (1 + n) * d == d + n * d
  {
  }

  /** Emission `k` carries the next sequence number and begins where its track's earlier samples end. */
  ghost predicate Placed(es: seq<Emission>, k: nat)
    requires k < |es|
  {
    && es[k].piece.o.sequenceNumber == k + 1
    && 0 <= es[k].piece.o.baseDecodeTime == TrackTicks(es[..k], es[k].kind)
  }

  /** The parameter set is too short to name a codec: from here on every call fails. */
  predicate Doomed(s: State)
  {
    s.videoTrackId.Some? && s.videoConfig.Some? && VideoCodec(s.videoConfig.value).None?
  }

  /** The counters continue the emissions. */
  ghost predicate Counts(s: State, es: seq<Emission>)
  {
    && s.sequenceNumber == |es| + 1
    && s.audioDecodeTime == TrackTicks(es, Audio)
    && s.videoDecodeTime == TrackTicks(es, Video)
  }

  ghost predicate AllPlaced(es: seq<Emission>)
  {
    forall k :: 0 <= k < |es| ==> Placed(es, k)
  }

  lemma PlaceOne(es: seq<Emission>, e: Emission)
    requires AllPlaced(es)
    requires e.piece.o.sequenceNumber == |es| + 1 && 0 <= e.piece.o.baseDecodeTime == TrackTicks(es, e.kind)
    ensures AllPlaced(es + [e])
    ensures forall t :: TrackTicks(es + [e], t) == TrackTicks(es, t) + (if e.kind == t then Ticks(e.piece.o.samples) else 0)
  {
    hide Ticks, TrackTicks;
    var all := es + [e];
    assert all[..|es|] == es;
    forall k | 0 <= k < |all| ensures Placed(all, k)
    {
      if k < |es| {
        assert Placed(es, k);
        assert all[..k] == es[..k];
      }
    }
    forall t ensures TrackTicks(all, t) == TrackTicks(es, t) + (if e.kind == t then Ticks(e.piece.o.samples) else 0)
    {
      TicksSnoc(es, e, t);
    }
  }

  lemma TicksSnoc(es: seq<Emission>, e: Emission, t: TransmuxTrack)
    ensures TrackTicks(es + [e], t) == TrackTicks(es, t) + (if e.kind == t then Ticks(e.piece.o.samples) else 0)
  {
    assert (es + [e])[..|es|] == es;
  }

  lemma AudioPlaced(s: State, es: seq<Emission>, data: seq<seq<byte>>)
    requires Counts(s, es) && AllPlaced(es)
    ensures var e := Emission(Audio, AudioPiece(s, data));
            Counts(EmitAudio(s, data), es + [e]) && AllPlaced(es + [e])
  {
    AudioTicks(data);
    PlaceOne(es, Emission(Audio, AudioPiece(s, data)));
  }

  lemma VideoPlaced(s: State, es: seq<Emission>, v: VideoInput)
    requires Counts(s, es) && AllPlaced(es)
    ensures var e := Emission(Video, VideoPiece(s, v));
            Counts(EmitVideo(s, v), es + [e]) && AllPlaced(es + [e])
  {
    hide FrameDuration, Group;
    FrameDurationPositive(v.pts);
    VideoTicks(Group(v.nalus, []), 0, v.pts, FrameDuration(v.pts));
    PlaceOne(es, Emission(Video, VideoPiece(s, v)));
  }

  /** The turns of one call keep the counters in step with what is handed out. */
  lemma TurnsPlaced(s: State, es: seq<Emission>, a: AudioInput, v: VideoInput)
    requires Counts(s, es) && AllPlaced(es)
    ensures var (s1, e1) := VideoTurn(s, v);
            var (s2, e2) := AudioTurn(s1, a);
            Counts(s2, es + (e1 + e2)) && AllPlaced(es + (e1 + e2))
  {
    hide AudioPiece, VideoPiece, EmitAudio, EmitVideo, Group, Counts, AllPlaced;
    var (s1, e1) := VideoTurn(s, v);
    if EmitsVideo(s, v) { VideoPlaced(s, es, v); } else { assert es + e1 == es; }
    assert Counts(s1, es + e1) && AllPlaced(es + e1);
    var (s2, e2) := AudioTurn(s1, a);
    if EmitsAudio(s1, a) {
      AudioPlaced(s1, es + e1, a.data);
      assert (es + e1) + e2 == es + (e1 + e2);
    } else {
      assert es + (e1 + e2) == es + e1;
    }
  }

  /** A failed call that is not doomed has left the counters alone. */
  ghost predicate InStep(s: State, es: seq<Emission>)
  {
    AllPlaced(es) && (Doomed(s) || Counts(s, es))
  }

  lemma DeclareKeepsCounts(s: State, a: AudioInput, v: VideoInput, es: seq<Emission>)
    requires Counts(s, es)
    ensures Counts(Declare(WithVideoConfig(WithAudioConfig(s, a), v)), es)
  {
    hide InitBytes, Traks, TrakBytes, FirstNal, ConfigOfSets, ConfigOfFrame;
  }

  lemma DoomedStaysDoomed(s: State, a: AudioInput, v: VideoInput)
    requires Doomed(s)
    ensures Doomed(StepTs(s, a, v).state) && StepTs(s, a, v).outcome.Failed?
  {
    hide InitBytes, Traks, TrakBytes, FirstNal, ConfigOfSets, ConfigOfFrame, VideoPiece, AudioPiece, Group, VideoCodec;
  }

  lemma FinishFails(s: State, es: seq<Emission>)
    requires s.initSegment.Some?
    ensures Finish(s, es).outcome.Failed? <==> Doomed(s)
    ensures Finish(s, es).outcome.Emitted? ==> Finish(s, es).outcome.emissions == es
  {
    hide VideoCodec, Digits;
  }

  /** Without an init segment there is no track to emit. */
  predicate Sound(s: State)
  {
    s.initSegment.None? ==> s.audioTrackId.None? && s.videoTrackId.None?
  }

  lemma TurnsKeep(s: State, a: AudioInput, v: VideoInput)
    ensures var (s1, e1) := VideoTurn(s, v);
            var (s2, e2) := AudioTurn(s1, a);
            && s2.initSegment == s.initSegment && s2.track == s.track
            && s2.audioConfig == s.audioConfig && s2.videoConfig == s.videoConfig
            && s2.audioTrackId == s.audioTrackId && s2.videoTrackId == s.videoTrackId
            && (s.audioTrackId.None? && s.videoTrackId.None? ==> s2 == s && e1 + e2 == [])
  {
    hide VideoPiece, AudioPiece, Group;
  }

  lemma DeclareSound(s: State, a: AudioInput, v: VideoInput)
    requires Sound(s)
    ensures Sound(Declare(WithVideoConfig(WithAudioConfig(s, a), v)))
  {
    hide InitBytes, Traks, TrakBytes, FirstNal, ConfigOfSets, ConfigOfFrame;
  }

  lemma StepTsInStep(s: State, a: AudioInput, v: VideoInput, es: seq<Emission>)
    requires InStep(s, es) && Sound(s)
    ensures var r := StepTs(s, a, v);
            Sound(r.state) && InStep(r.state, es + (if r.outcome.Emitted? then r.outcome.emissions else []))
  {
    hide Declare, WithVideoConfig, WithAudioConfig, VideoTurn, AudioTurn, Finish, Counts, AllPlaced, Doomed;
    var declared := Declare(WithVideoConfig(WithAudioConfig(s, a), v));
    DeclareSound(s, a, v);
    TurnsKeep(declared, a, v);
    var (s1, e1) := VideoTurn(declared, v);
    var (s2, e2) := AudioTurn(s1, a);
    assert es + [] == es;
    FinishState(s2, e1 + e2);
    if Doomed(s) {
      DoomedStaysDoomed(s, a, v);
    } else {
      DeclareKeepsCounts(s, a, v, es);
      TurnsPlaced(declared, es, a, v);
      if s2.initSegment.Some? {
        FinishFails(s2, e1 + e2);
      } else {
        NoInitFails(s2, e1 + e2);
      }
    }
  }

  lemma FinishState(s: State, es: seq<Emission>)
    ensures Finish(s, es).state == s
  {
  }

  lemma NoInitFails(s: State, es: seq<Emission>)
    requires s.initSegment.None?
    ensures Finish(s, es).outcome.Failed?
  {
  }

  lemma StepAdtsInStep(s: State, d: seq<byte>, es: seq<Emission>)
    requires InStep(s, es) && Sound(s) && ConfigHasInit(s)
    ensures var r := StepAdts(s, d);
            Sound(r.state) && InStep(r.state, es + (if r.outcome.Emitted? then r.outcome.emissions else []))
  {
    hide Finish, Counts, AllPlaced, Doomed, AudioPiece, EmitAudio, Adts.Frames, Adts.RawParts, ConfigOfFrame, InitBytes, Traks;
    assert es + [] == es;
    var frames := Adts.Frames(d, 0);
    if s.track != Some(Video) && frames != [] {
      var declared := DeclareAudioOnly(s, frames[0]);
      var data := Adts.RawParts(d, frames);
      var e := [Emission(Audio, AudioPiece(declared, data))];
      AudioOnlyKeeps(s, frames[0], data, es);
      FinishState(EmitAudio(declared, data), e);
      FinishFails(EmitAudio(declared, data), e);
      if !Doomed(s) { AudioPlaced(declared, es, data); }
    }
  }

  /** A configuration is only ever set together with an init segment. */
  predicate ConfigHasInit(s: State)
  {
    s.audioConfig.Some? || s.videoConfig.Some? ==> s.initSegment.Some?
  }

  lemma AudioOnlyKeeps(s: State, f: Adts.AdtsFrame, data: seq<seq<byte>>, es: seq<Emission>)
    requires ConfigHasInit(s)
    ensures var declared := DeclareAudioOnly(s, f);
            var after := EmitAudio(declared, data);
            && declared.initSegment.Some? && after.initSegment.Some? && after.audioConfig.Some?
            && (Doomed(after) <==> Doomed(s))
            && (Counts(s, es) ==> Counts(declared, es))
  {
    hide ConfigOfFrame, InitBytes, Traks, VideoCodec, TrackTicks;
  }

  lemma StepTsConfigHasInit(s: State, a: AudioInput, v: VideoInput)
    requires ConfigHasInit(s)
    ensures ConfigHasInit(StepTs(s, a, v).state)
  {
    hide InitBytes, Traks, TrakBytes, FirstNal, ConfigOfSets, ConfigOfFrame, VideoPiece, AudioPiece, Group, Codecs;
  }

  lemma StepInStep(s: State, d: seq<byte>, es: seq<Emission>)
    requires InStep(s, es) && Sound(s) && ConfigHasInit(s)
    ensures var r := Step(s, d);
            && Sound(r.state) && ConfigHasInit(r.state)
            && InStep(r.state, es + (if r.outcome.Emitted? then r.outcome.emissions else []))
  {
    hide StepTs, StepAdts, InStep, Sound, ConfigHasInit, AudioInputOf, VideoInputOf, MpegTs.Demux, WithoutId3;
    var segment := WithoutId3(d);
    assert es + [] == es;
    if IsMpegTs(segment) {
      var streams := MpegTs.Demux(segment);
      StepTsInStep(s, AudioInputOf(s.track, streams), VideoInputOf(s.track, streams), es);
      StepTsConfigHasInit(s, AudioInputOf(s.track, streams), VideoInputOf(s.track, streams));
    } else if IsAdts(segment) {
      StepAdtsInStep(s, segment, es);
      StepAdtsConfigHasInit(s, segment);
    }
  }

  lemma StepAdtsConfigHasInit(s: State, d: seq<byte>)
    requires ConfigHasInit(s)
    ensures ConfigHasInit(StepAdts(s, d).state)
  {
    hide ConfigOfFrame, InitBytes, Traks, Codecs, AudioPiece, Adts.Frames;
  }

  lemma {:induction false} RunInStep(track: Option<TransmuxTrack>, inputs: seq<seq<byte>>)
    ensures var t := Run(Initial(track), inputs);
            Sound(t.state) && ConfigHasInit(t.state) && InStep(t.state, t.emissions)
    decreases |inputs|
  {
    hide Step;
    if inputs != [] {
      var n := |inputs| - 1;
      RunInStep(track, inputs[..n]);
      var before := Run(Initial(track), inputs[..n]);
      StepInStep(before.state, inputs[n], before.emissions);
    }
  }

  /** In every run, of any mix of segments and failures: fragments are numbered 1, 2, 3, ... in the order
      they are handed out, and each begins at the sum of all earlier sample durations of its track. */
  lemma EveryFragmentPlaced(track: Option<TransmuxTrack>, inputs: seq<seq<byte>>, k: nat)
    requires k < |Run(Initial(track), inputs).emissions|
    ensures var es := Run(Initial(track), inputs).emissions;
            && es[k].piece.o.sequenceNumber == k + 1
            && 0 <= es[k].piece.o.baseDecodeTime == TrackTicks(es[..k], es[k].kind)
  {
    RunInStep(track, inputs);
    assert Placed(Run(Initial(track), inputs).emissions, k);
  }

  /** The decode time in a fragment is read as that sum exactly when the sum fits the 32 bits it is written in. */
  lemma DecodeTimeReadIff(track: Option<TransmuxTrack>, inputs: seq<seq<byte>>, k: nat)
    requires k < |Run(Initial(track), inputs).emissions|
    ensures var es := Run(Initial(track), inputs).emissions;
            es[k].piece.Read().fragment.baseDecodeTime == TrackTicks(es[..k], es[k].kind)
            <==> TrackTicks(es[..k], es[k].kind) < 0x1_0000_0000
  {
    hide Run;
    EveryFragmentPlaced(track, inputs, k);
  }
}
