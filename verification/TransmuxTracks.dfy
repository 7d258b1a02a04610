/**
 The tracks of a run: the init segment is built once and stays, it declares exactly the track ids in
 use, and every fragment and codec name belongs to a declared track - unless an ADTS segment meets
 a transmuxer whose init segment has no audio, the one case in which the code builds it again.
 */
module TransmuxTracks {
  import opened Bytes
  import opened Strings
  import opened Wrappers
  import MpegTs
  import Adts
  import opened Mp4
  import opened InitSegment
  import opened Transmuxer
  import opened TransmuxRun

  /** The configuration the init segment declares, per kind. */
  function DeclaredVideo(s: State): Option<VideoTrackConfig>
  {
    if s.videoTrackId.Some? then s.videoConfig else None
  }

  function DeclaredAudio(s: State): Option<AudioTrackConfig>
  {
    if s.audioTrackId.Some? then s.audioConfig else None
  }

  /** Ids follow the order of the tracks, video first. */
  function VideoId(video: Option<VideoTrackConfig>): Option<nat>
  {
    if video.Some? then Some(1) else None
  }

  function AudioId(video: Option<VideoTrackConfig>, audio: Option<AudioTrackConfig>): Option<nat>
  {
    if audio.None? then None else if video.Some? then Some(2) else Some(1)
  }

  /** The init segment is that of the declared configurations and the assigned ids are theirs. */
  ghost predicate Consistent(s: State)
  {
    var v, a := DeclaredVideo(s), DeclaredAudio(s);
    && s.videoTrackId == VideoId(v) && s.audioTrackId == AudioId(v, a)
    && s.initSegment == (if v.None? && a.None? then None else Some(InitBytes(TrakBytes(Traks(v, a)))))
  }

  /** An ADTS segment with frames arrives while the init segment declares no audio. */
  predicate Rebuilds(s: State, d: seq<byte>)
  {
    var segment := WithoutId3(d);
    && !IsMpegTs(segment) && IsAdts(segment) && s.track != Some(Video)
    && Adts.Frames(segment, 0) != [] && s.audioConfig.None? && s.initSegment.Some?
  }

  /** An ADTS segment with frames arrives when audio is configured but was not declared. */
  predicate Undeclared(s: State, d: seq<byte>)
  {
    var segment := WithoutId3(d);
    && !IsMpegTs(segment) && IsAdts(segment) && s.track != Some(Video)
    && Adts.Frames(segment, 0) != [] && s.audioConfig.Some? && s.audioTrackId.None?
  }

  /** Both kinds claim track 1. */
  predicate Clashing(s: State)
  {
    && s.initSegment.Some? && s.videoTrackId == Some(1) && s.audioTrackId == Some(1)
    && s.audioConfig.Some? && s.videoConfig.Some?
  }

  /** What is fixed once there is an init segment. */
  predicate Fixed(s: State, t: State)
  {
    s.initSegment.Some? ==>
      && t.initSegment == s.initSegment
      && t.videoTrackId == s.videoTrackId && t.audioTrackId == s.audioTrackId
      && DeclaredVideo(t) == DeclaredVideo(s) && DeclaredAudio(t) == DeclaredAudio(s)
  }

  // ------------------------------------------------------------------ one call

  lemma DeclareConsistent(s: State, a: AudioInput, v: VideoInput)
    requires Consistent(s)
    ensures var declared := Declare(WithVideoConfig(WithAudioConfig(s, a), v));
            Consistent(declared) && Fixed(s, declared)
    ensures Clashing(s) ==> Clashing(Declare(WithVideoConfig(WithAudioConfig(s, a), v)))
  {
    hide InitBytes, Traks, TrakBytes, FirstNal, ConfigOfSets, ConfigOfFrame;
  }

  lemma StepTsConsistent(s: State, a: AudioInput, v: VideoInput)
    requires Consistent(s)
    ensures Consistent(StepTs(s, a, v).state) && Fixed(s, StepTs(s, a, v).state)
  {
    hide Declare, WithVideoConfig, WithAudioConfig, VideoTurn, AudioTurn, Finish, InitBytes, Traks, TrakBytes;
    var declared := Declare(WithVideoConfig(WithAudioConfig(s, a), v));
    DeclareConsistent(s, a, v);
    TurnsKeep(declared, a, v);
    var (s1, e1) := VideoTurn(declared, v);
    var (s2, e2) := AudioTurn(s1, a);
    FinishState(s2, e1 + e2);
  }

  lemma StepTsClashing(s: State, a: AudioInput, v: VideoInput)
    requires Clashing(s)
    ensures Clashing(StepTs(s, a, v).state)
  {
    hide VideoTurn, AudioTurn, Finish, InitBytes, Traks, TrakBytes;
    TurnsKeep(s, a, v);
    var (s1, e1) := VideoTurn(s, v);
    var (s2, e2) := AudioTurn(s1, a);
    FinishState(s2, e1 + e2);
  }

  lemma StepAdtsConsistent(s: State, d: seq<byte>)
    requires Consistent(s) && ConfigHasInit(s) && IsAdts(WithoutId3(d)) && !IsMpegTs(WithoutId3(d))
    ensures var t := StepAdts(s, WithoutId3(d)).state;
            && (!Rebuilds(s, d) ==> Consistent(t) && Fixed(s, t))
            && (Rebuilds(s, d) ==> Clashing(t))
  {
    hide ConfigOfFrame, InitBytes, Traks, TrakBytes, Codecs, AudioPiece, Adts.Frames, Adts.RawParts, WithoutId3;
  }

  /** One call keeps the state consistent exactly when it does not build the init segment again. */
  lemma StepConsistent(s: State, d: seq<byte>)
    requires Consistent(s) && ConfigHasInit(s)
    ensures Consistent(Step(s, d).state) <==> !Rebuilds(s, d)
    ensures !Rebuilds(s, d) ==> Fixed(s, Step(s, d).state)
    ensures Rebuilds(s, d) ==> Clashing(Step(s, d).state)
  {
    hide StepTs, StepAdts, AudioInputOf, VideoInputOf, MpegTs.Demux, WithoutId3, ConfigHasInit, InitBytes, Traks, TrakBytes;
    var segment := WithoutId3(d);
    if IsMpegTs(segment) {
      var streams := MpegTs.Demux(segment);
      StepTsConsistent(s, AudioInputOf(s.track, streams), VideoInputOf(s.track, streams));
    } else if IsAdts(segment) {
      StepAdtsConsistent(s, d);
    }
  }

  lemma StepClashing(s: State, d: seq<byte>)
    requires Clashing(s)
    ensures Clashing(Step(s, d).state) && !Rebuilds(s, d)
  {
    hide StepTs, AudioInputOf, VideoInputOf, MpegTs.Demux, WithoutId3, InitBytes, Traks, TrakBytes, AudioPiece, Codecs,
         Adts.Frames, Adts.RawParts;
    var segment := WithoutId3(d);
    if IsMpegTs(segment) {
      var streams := MpegTs.Demux(segment);
      StepTsClashing(s, AudioInputOf(s.track, streams), VideoInputOf(s.track, streams));
    }
  }

  /** The id an emission must carry. */
  function IdOf(s: State, kind: TransmuxTrack): Option<nat>
  {
    match kind case Video => s.videoTrackId case Audio => s.audioTrackId
  }

  ghost predicate AllBelong(s: State, es: seq<Emission>)
  {
    forall e :: e in es ==> Some(e.piece.o.trackId) == IdOf(s, e.kind)
  }

  lemma TurnsBelong(s: State, a: AudioInput, v: VideoInput)
    ensures var (s1, e1) := VideoTurn(s, v);
            var (s2, e2) := AudioTurn(s1, a);
            AllBelong(s2, e1 + e2)
  {
    hide Group, VideoSamples, UnitsData, FrameDuration, AudioSamples;
  }

  lemma StepTsBelongs(s: State, a: AudioInput, v: VideoInput)
    ensures var r := StepTs(s, a, v);
            r.outcome.Emitted? ==> AllBelong(r.state, r.outcome.emissions)
  {
    hide Declare, WithVideoConfig, WithAudioConfig, VideoTurn, AudioTurn, AllBelong, Codecs;
    TurnsBelong(Declare(WithVideoConfig(WithAudioConfig(s, a), v)), a, v);
  }

  lemma StepAdtsBelongs(s: State, d: seq<byte>)
    requires !IsMpegTs(WithoutId3(d)) && IsAdts(WithoutId3(d))
    ensures var r := StepAdts(s, WithoutId3(d));
            && (r.outcome.Emitted? ==> (AllBelong(r.state, r.outcome.emissions) <==> !Undeclared(s, d)))
            && (r.outcome.Emitted? && Undeclared(s, d) ==> r.outcome.emissions[0].piece.o.trackId == 0)
  {
    hide ConfigOfFrame, InitBytes, Traks, TrakBytes, Codecs, AudioSamples, Adts.Frames, Adts.RawParts, WithoutId3, AllBelong;
    var segment := WithoutId3(d);
    var frames := Adts.Frames(segment, 0);
    if s.track != Some(Video) && frames != [] {
      var e := Emission(Audio, AudioPiece(DeclareAudioOnly(s, frames[0]), Adts.RawParts(segment, frames)));
      var after := StepAdts(s, segment).state;
      assert AllBelong(after, [e]) <==> Some(e.piece.o.trackId) == IdOf(after, e.kind) by { OnlyOne(after, e); }
    }
  }

  lemma OnlyOne(s: State, e: Emission)
    ensures AllBelong(s, [e]) <==> Some(e.piece.o.trackId) == IdOf(s, e.kind)
  {
    assert e in [e];
  }

  /** Every fragment of a call carries the id assigned to its kind, exactly when the call does not meet audio
      that is configured but not declared; such a fragment would carry track id 0. */
  lemma StepBelongs(s: State, d: seq<byte>)
    requires Step(s, d).outcome.Emitted?
    ensures var r := Step(s, d);
            && (AllBelong(r.state, r.outcome.emissions) <==> !Undeclared(s, d))
            && (Undeclared(s, d) ==> r.outcome.emissions != [] && r.outcome.emissions[0].piece.o.trackId == 0)
  {
    hide StepTs, StepAdts, AudioInputOf, VideoInputOf, MpegTs.Demux, WithoutId3, AllBelong, InitBytes;
    var segment := WithoutId3(d);
    if IsMpegTs(segment) {
      var streams := MpegTs.Demux(segment);
      StepTsBelongs(s, AudioInputOf(s.track, streams), VideoInputOf(s.track, streams));
    } else {
      StepAdtsBelongs(s, d);
      AdtsEmitsOne(s, segment);
    }
  }

  lemma AdtsEmitsOne(s: State, d: seq<byte>)
    ensures StepAdts(s, d).outcome.Emitted? ==> |StepAdts(s, d).outcome.emissions| == 1
  {
    hide ConfigOfFrame, InitBytes, Traks, TrakBytes, Codecs, AudioPiece, Adts.Frames, Adts.RawParts;
  }

  /** Mixing containers does go wrong: after video alone was declared, one empty AAC frame in an ADTS segment
      makes both kinds claim track 1. */
  lemma MixingClashes(c: VideoTrackConfig, n: nat, t: nat)
    ensures var s := State(None, Some(InitBytes(TrakBytes(Traks(Some(c), None)))), n, None, Some(c), 0, t, None, Some(1));
            Consistent(s) && Clashing(Step(s, [0xFF, 0xF1, 0x50, 0x80, 0x00, 0xFF, 0xFC]).state)
  {
    hide InitBytes, TrakBytes, Traks, StepAdts, StepMpegTs;
    var s := State(None, Some(InitBytes(TrakBytes(Traks(Some(c), None)))), n, None, Some(c), 0, t, None, Some(1));
    var d := [0xFF, 0xF1, 0x50, 0x80, 0x00, 0xFF, 0xFC];
    assert WithoutId3(d) == d;
    assert Adts.Frames(d, 0) != [];
    StepAdtsConsistent(s, d);
  }

  // ------------------------------------------------------------------ runs

  /** The state before call `k`. */
  function Before(track: Option<TransmuxTrack>, inputs: seq<seq<byte>>, k: nat): State
    requires k <= |inputs|
  {
    Run(Initial(track), inputs[..k]).state
  }

  /** The outcome of call `k`. */
  function OutcomeOf(track: Option<TransmuxTrack>, inputs: seq<seq<byte>>, k: nat): Outcome
    requires k < |inputs|
  {
    Step(Before(track, inputs, k), inputs[k]).outcome
  }

  ghost predicate NeverRebuilds(track: Option<TransmuxTrack>, inputs: seq<seq<byte>>, n: nat)
    requires n <= |inputs|
  {
    forall k :: 0 <= k < n ==> !Rebuilds(Before(track, inputs, k), inputs[k])
  }

  lemma BeforeNext(track: Option<TransmuxTrack>, inputs: seq<seq<byte>>, k: nat)
    requires k < |inputs|
    ensures Before(track, inputs, k + 1) == Step(Before(track, inputs, k), inputs[k]).state
  {
    hide Step;
    assert inputs[..k + 1][..k] == inputs[..k];
  }

  lemma BeforeAll(track: Option<TransmuxTrack>, inputs: seq<seq<byte>>)
    ensures Before(track, inputs, 0) == Initial(track)
    ensures Consistent(Initial(track)) && AudioOnly(Initial(track))
  {
    hide Step;
    assert inputs[..0] == [];
  }

  /** In any run, of any mix of containers: the state is consistent exactly as long as no call has built the
      init segment a second time. */
  lemma {:induction false} ConsistentIff(track: Option<TransmuxTrack>, inputs: seq<seq<byte>>, n: nat)
    requires n <= |inputs|
    ensures Consistent(Before(track, inputs, n)) <==> NeverRebuilds(track, inputs, n)
    ensures !Consistent(Before(track, inputs, n)) ==> Clashing(Before(track, inputs, n))
  {
    hide Step, Rebuilds, Consistent, Clashing, Before, ConfigHasInit;
    if n == 0 {
      BeforeAll(track, inputs);
    } else {
      ConsistentIff(track, inputs, n - 1);
      var s := Before(track, inputs, n - 1);
      BeforeNext(track, inputs, n - 1);
      BeforeHasInit(track, inputs, n - 1);
      if Consistent(s) {
        StepConsistent(s, inputs[n - 1]);
      } else {
        StepClashing(s, inputs[n - 1]);
        ClashingIsNot(Before(track, inputs, n));
      }
    }
  }

  lemma BeforeHasInit(track: Option<TransmuxTrack>, inputs: seq<seq<byte>>, k: nat)
    requires k <= |inputs|
    ensures ConfigHasInit(Before(track, inputs, k))
  {
    hide InStep, Sound, ConfigHasInit, Run;
    RunInStep(track, inputs[..k]);
  }

  lemma ClashingIsNot(s: State)
    requires Clashing(s)
    ensures !Consistent(s)
  {
    hide InitBytes, Traks, TrakBytes;
  }

  predicate IsTsSegment(d: seq<byte>)
  {
    IsMpegTs(WithoutId3(d))
  }

  predicate IsAdtsSegment(d: seq<byte>)
  {
    !IsTsSegment(d) && IsAdts(WithoutId3(d))
  }

  /** The segments of a stream all come in one container. */
  predicate OneContainer(inputs: seq<seq<byte>>)
  {
    (forall d :: d in inputs ==> !IsAdtsSegment(d)) || (forall d :: d in inputs ==> !IsTsSegment(d))
  }

  /** Without MPEG-TS there is no video, and an init segment means a declared audio configuration. */
  predicate AudioOnly(s: State)
  {
    && s.videoConfig.None? && (s.initSegment.Some? ==> s.audioConfig.Some?)
    && (s.audioConfig.Some? ==> s.audioTrackId.Some?)
  }

  lemma StepAudioOnly(s: State, d: seq<byte>)
    requires AudioOnly(s) && !IsTsSegment(d)
    ensures AudioOnly(Step(s, d).state) && !Rebuilds(s, d) && !Undeclared(s, d)
  {
    hide WithoutId3, InitBytes, Traks, TrakBytes, AudioPiece, Codecs, Adts.Frames, Adts.RawParts, ConfigOfFrame;
  }

  lemma {:induction false} AdtsRun(track: Option<TransmuxTrack>, inputs: seq<seq<byte>>, n: nat)
    requires n <= |inputs| && (forall d :: d in inputs ==> !IsTsSegment(d))
    ensures AudioOnly(Before(track, inputs, n))
  {
    hide Step, Before, AudioOnly, IsTsSegment, Rebuilds, Consistent;
    if n == 0 {
      BeforeAll(track, inputs);
    } else {
      AdtsRun(track, inputs, n - 1);
      BeforeNext(track, inputs, n - 1);
      StepAudioOnly(Before(track, inputs, n - 1), inputs[n - 1]);
    }
  }

  /** On one container the init segment is never built twice. */
  lemma OneContainerNeverRebuilds(track: Option<TransmuxTrack>, inputs: seq<seq<byte>>)
    requires OneContainer(inputs)
    ensures NeverRebuilds(track, inputs, |inputs|)
  {
    hide Before, Step;
    forall k | 0 <= k < |inputs| ensures !Rebuilds(Before(track, inputs, k), inputs[k])
    {
      if forall d :: d in inputs ==> !IsTsSegment(d) {
        AdtsRun(track, inputs, k);
        StepAudioOnly(Before(track, inputs, k), inputs[k]);
      } else {
        assert !IsAdtsSegment(inputs[k]);
      }
    }
  }

  lemma {:induction false} StaysFixed(track: Option<TransmuxTrack>, inputs: seq<seq<byte>>, i: nat, j: nat)
    requires i <= j <= |inputs| && NeverRebuilds(track, inputs, |inputs|)
    ensures Fixed(Before(track, inputs, i), Before(track, inputs, j))
    decreases j
  {
    hide Step, Rebuilds, Consistent, Clashing, Before, ConfigHasInit;
    if i < j {
      StaysFixed(track, inputs, i, j - 1);
      ConsistentIff(track, inputs, j - 1);
      var s := Before(track, inputs, j - 1);
      BeforeNext(track, inputs, j - 1);
      BeforeHasInit(track, inputs, j - 1);
      StepConsistent(s, inputs[j - 1]);
    }
  }

  lemma OutcomeState(s: State, d: seq<byte>)
    ensures var r := Step(s, d);
            r.outcome.Emitted? ==> Some(r.outcome.init) == r.state.initSegment && Some(r.outcome.codecs) == Codecs(r.state)
  {
    hide WithoutId3, InitBytes, Traks, TrakBytes, AudioPiece, Codecs, Adts.Frames, Adts.RawParts, ConfigOfFrame, MpegTs.Demux,
         AudioInputOf, VideoInputOf, Declare, WithVideoConfig, WithAudioConfig, VideoTurn, AudioTurn;
  }

  /** Every call of a run that hands out an init segment hands out the same one. */
  lemma InitSegmentNeverChanges(track: Option<TransmuxTrack>, inputs: seq<seq<byte>>, i: nat, j: nat)
    requires OneContainer(inputs) && i <= j < |inputs|
    requires OutcomeOf(track, inputs, i).Emitted? && OutcomeOf(track, inputs, j).Emitted?
    ensures OutcomeOf(track, inputs, i).init == OutcomeOf(track, inputs, j).init
  {
    hide Step, Rebuilds, Before, OneContainer;
    OneContainerNeverRebuilds(track, inputs);
    StaysFixed(track, inputs, i + 1, j + 1);
    OutcomeState(Before(track, inputs, i), inputs[i]);
    OutcomeState(Before(track, inputs, j), inputs[j]);
    BeforeNext(track, inputs, i);
    BeforeNext(track, inputs, j);
  }

  // ------------------------------------------------------------------ the declared tracks of a run

  /** The names of the given tracks, video first. */
  function Names(video: Option<VideoTrackConfig>, audio: Option<AudioTrackConfig>): Option<seq<string>>
  {
    var a := if audio.Some? then ["mp4a.40." + Digits(audio.value.audioObjectType)] else [];
    match video
    case None => Some(a)
    case Some(c) => match VideoCodec(c) case None => None case Some(name) => Some([name] + a)
  }

  /** An outcome that speaks of the tracks `v` and `a`, and of no others. */
  ghost predicate Declares(o: Outcome, v: Option<VideoTrackConfig>, a: Option<AudioTrackConfig>)
    requires o.Emitted?
  {
    && (v.Some? || a.Some?)
    && o.init == InitBytes(TrakBytes(Traks(v, a)))
    && Some(o.codecs) == Names(v, a)
    && forall e :: e in o.emissions ==>
         Some(e.piece.o.trackId) == (match e.kind case Video => VideoId(v) case Audio => AudioId(v, a))
  }

  ghost predicate AllDeclare(track: Option<TransmuxTrack>, inputs: seq<seq<byte>>,
                             v: Option<VideoTrackConfig>, a: Option<AudioTrackConfig>)
  {
    forall k :: 0 <= k < |inputs| && OutcomeOf(track, inputs, k).Emitted? ==> Declares(OutcomeOf(track, inputs, k), v, a)
  }

  lemma OutcomeDeclares(track: Option<TransmuxTrack>, inputs: seq<seq<byte>>, k: nat)
    requires OneContainer(inputs) && k < |inputs| && OutcomeOf(track, inputs, k).Emitted?
    ensures var s := Before(track, inputs, k + 1);
            s.initSegment.Some? && Declares(OutcomeOf(track, inputs, k), DeclaredVideo(s), DeclaredAudio(s))
  {
    hide Step, Rebuilds, Before, OneContainer, Undeclared, Codecs, Names, InitBytes, Traks, TrakBytes;
    var s := Before(track, inputs, k);
    OneContainerNeverRebuilds(track, inputs);
    ConsistentIff(track, inputs, k + 1);
    OutcomeState(s, inputs[k]);
    BeforeNext(track, inputs, k);
    NeverUndeclared(track, inputs, k);
    StepBelongs(s, inputs[k]);
    CodecsAreNames(Before(track, inputs, k + 1));
  }

  lemma CodecsAreNames(s: State)
    requires Consistent(s)
    ensures Codecs(s) == Names(DeclaredVideo(s), DeclaredAudio(s))
  {
    hide VideoCodec, Digits, InitBytes, TrakBytes, Traks;
  }

  lemma NeverUndeclared(track: Option<TransmuxTrack>, inputs: seq<seq<byte>>, k: nat)
    requires OneContainer(inputs) && k < |inputs|
    ensures !Undeclared(Before(track, inputs, k), inputs[k])
  {
    hide Step, Before, AudioOnly;
    if forall d :: d in inputs ==> !IsTsSegment(d) {
      AdtsRun(track, inputs, k);
      StepAudioOnly(Before(track, inputs, k), inputs[k]);
    } else {
      assert !IsAdtsSegment(inputs[k]);
    }
  }

  /** A run on one container has one fixed set of tracks: every successful call hands out the init segment of
      exactly these, names exactly these, and emits fragments of these only, under the ids assigned to them.
      A track first seen after the init segment was built is therefore never emitted. */
  lemma OneSetOfTracks(track: Option<TransmuxTrack>, inputs: seq<seq<byte>>)
    requires OneContainer(inputs)
    ensures exists v, a :: AllDeclare(track, inputs, v, a)
  {
    hide Step, Before, OneContainer, Declares, Rebuilds;
    var last := Before(track, inputs, |inputs|);
    var v, a := DeclaredVideo(last), DeclaredAudio(last);
    OneContainerNeverRebuilds(track, inputs);
    forall k | 0 <= k < |inputs| && OutcomeOf(track, inputs, k).Emitted?
      ensures Declares(OutcomeOf(track, inputs, k), v, a)
    {
      OutcomeDeclares(track, inputs, k);
      StaysFixed(track, inputs, k + 1, |inputs|);
    }
    assert AllDeclare(track, inputs, v, a);
  }

  /** The ids in use, video first. */
  function IdsOf(v: Option<VideoTrackConfig>, a: Option<AudioTrackConfig>): seq<nat>
  {
    (match VideoId(v) case None => [] case Some(i) => [i]) + (match AudioId(v, a) case None => [] case Some(i) => [i])
  }

  lemma MediaReadable(parts: seq<seq<byte>>, id: nat, width: int, height: int, volume: nat)
    requires id < 0x1_0000_0000
    requires 8 + TotalLength(Trak(id, width, height, volume, BoxBytes(Ascii("mdia"), parts)).Payloads()) < 0x1_0000_0000
    ensures Readable(Trak(id, width, height, volume, BoxBytes(Ascii("mdia"), parts)))
  {
    hide ReadBoxes, Ascii, Tkhd, BoxBytes;
    var mdia := BoxBytes(Ascii("mdia"), parts);
    BoxSize(Ascii("mdia"), parts);
    assert Trak(id, width, height, volume, mdia).Payloads()[1..] == [mdia];
    assert mdia + [] == mdia;
    EmptyBoxes();
    BoxBack(mdia, Ascii("mdia"), parts, []);
  }

  lemma TraksFit(ts: seq<Trak>, i: nat, t: Trak)
    requires t in ts
    ensures TotalLength(TraksAndMvex(TrakBytes(ts), i)) >= |t.Bytes()|
  {
    hide Trak.Bytes, Mvex;
    TraksSplit(ts, i);
    var rest := TraksAndMvex(TrakBytes(ts[1..]), i + 1);
    assert ([ts[0].Bytes(), Mvex(i)] + rest)[1..] == [Mvex(i)] + rest;
    assert ([Mvex(i)] + rest)[1..] == rest;
    if t != ts[0] { TraksFit(ts[1..], i + 1, t); }
  }

  /** Reading an init segment gives back the ids in use, each once. */
  lemma InitDeclaresIds(v: Option<VideoTrackConfig>, a: Option<AudioTrackConfig>)
    requires |InitBytes(TrakBytes(Traks(v, a)))| < 0x1_0000_0000
    ensures ReadTrackIds(InitBytes(TrakBytes(Traks(v, a)))) == Some(IdsOf(v, a))
    ensures forall i, j :: 0 <= i < j < |IdsOf(v, a)| ==> IdsOf(v, a)[i] != IdsOf(v, a)[j]
  {
    hide ReadTrackIds, Readable, Ids, IdsOf, InitBytes, Traks, TrakBytes;
    var ts := Traks(v, a);
    IdsAre(v, a);
    forall t | t in ts ensures Readable(t) { TrakReadable(v, a, t); }
    InitBack(ts);
  }

  lemma IdsAre(v: Option<VideoTrackConfig>, a: Option<AudioTrackConfig>)
    ensures Ids(Traks(v, a)) == IdsOf(v, a)
    ensures forall i, j :: 0 <= i < j < |IdsOf(v, a)| ==> IdsOf(v, a)[i] != IdsOf(v, a)[j]
  {
    hide VideoMdia, AudioMdia;
    var ts := Traks(v, a);
    if ts != [] {
      assert Ids(ts[1..]) == if |ts| == 2 then [ts[1].id] else [];
    }
  }

  lemma TrakReadable(v: Option<VideoTrackConfig>, a: Option<AudioTrackConfig>, t: Trak)
    requires t in Traks(v, a) && |InitBytes(TrakBytes(Traks(v, a)))| < 0x1_0000_0000
    ensures Readable(t)
  {
    hide Readable, Ascii, BoxBytes, Trak.Payloads, Ftyp, Mvhd, Stbl, Dinf, Hdlr, Mdhd;
    var ts := Traks(v, a);
    var children := TraksAndMvex(TrakBytes(ts), 1);
    TraksFit(ts, 1, t);
    BoxSize(Ascii("trak"), t.Payloads());
    BoxSize(Ascii("moov"), [Mvhd()] + children);
    assert ([Mvhd()] + children)[1..] == children;
    var parts :| t.mdia == BoxBytes(Ascii("mdia"), parts);
    MediaReadable(parts, t.id, t.width, t.height, t.volume);
  }
}
