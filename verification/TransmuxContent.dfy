/**
 What the fragments of a call carry: reading the media segment back and cutting its samples gives the
 parameter, SEI and slice NAL units of the elementary stream, and every AAC frame without its header.
 */
module TransmuxContent {
  import opened Bytes
  import opened Wrappers
  import AnnexB
  import Pes
  import MpegTs
  import Adts
  import opened Mp4
  import opened InitSegment
  import opened Transmuxer
  import opened TransmuxRun

  // ------------------------------------------------------------------ what a player finds in a video sample

  /** Cuts a sample by the four-byte length in front of every NAL unit. */
  function CutNals(d: seq<byte>): Option<seq<seq<byte>>>
    decreases |d|
  {
    if d == [] then Some([])
    else if |d| < 4 then None
    else
      var n := ReadBE32(d, 0);
      if 4 + n > |d| then None
      else
        match CutNals(d[4 + n..])
        case None => None
        case Some(rest) => Some([d[4..4 + n]] + rest)
  }

  /** The NAL units of each sample. */
  function NalsOfSamples(samples: seq<seq<byte>>): Option<seq<seq<seq<byte>>>>
  {
    if samples == [] then Some([])
    else
      match (CutNals(samples[0]), NalsOfSamples(samples[1..]))
      case (Some(first), Some(rest)) => Some([first] + rest)
      case _ => None
  }

  lemma PrefixParts(n: seq<byte>, rest: seq<byte>)
    requires |n| < 0x1_0000_0000
    ensures var d := LengthPrefixed(n) + rest;
            |d| >= 4 + |n| && ReadBE32(d, 0) == |n| && d[4..4 + |n|] == n && d[4 + |n|..] == rest
  {
    hide BE32, ReadBE32;
    var d := LengthPrefixed(n) + rest;
    assert d[0..4] == BE32(|n|);
    ReadBE32At(d, 0, |n|);
  }

  lemma {:induction false} CutNalsBack(nalus: seq<seq<byte>>)
    requires forall n :: n in nalus ==> |n| < 0x1_0000_0000
    ensures CutNals(Concat(Prefixed(nalus))) == Some(nalus)
  {
    hide LengthPrefixed, ReadBE32;
    if nalus != [] {
      PrefixParts(nalus[0], Concat(Prefixed(nalus[1..])));
      CutNalsBack(nalus[1..]);
      assert Prefixed(nalus)[1..] == Prefixed(nalus[1..]);
      assert nalus == [nalus[0]] + nalus[1..];
    }
  }

  function UnitNals(aus: seq<AccessUnit>): seq<seq<seq<byte>>>
  {
    if aus == [] then [] else [aus[0].nalus] + UnitNals(aus[1..])
  }

  ghost predicate NalsFit(aus: seq<AccessUnit>)
  {
    forall k, n :: 0 <= k < |aus| && n in aus[k].nalus ==> |n| < 0x1_0000_0000
  }

  lemma {:induction false} UnitsBack(aus: seq<AccessUnit>)
    requires NalsFit(aus)
    ensures NalsOfSamples(UnitsData(aus)) == Some(UnitNals(aus))
  {
    hide CutNals, Prefixed;
    if aus != [] {
      CutNalsBack(aus[0].nalus);
      UnitsBack(aus[1..]);
      assert UnitsData(aus)[1..] == UnitsData(aus[1..]);
    }
  }

  // ------------------------------------------------------------------ which NAL units are kept

  predicate IsSlice(n: seq<byte>)
  {
    NalType(n) == 5 || NalType(n) == 1
  }

  /** Sequence and picture parameter sets, and supplemental information. */
  predicate IsParameter(n: seq<byte>)
  {
    NalType(n) == 7 || NalType(n) == 8 || NalType(n) == 6
  }

  /** The units up to the last slice. */
  function UpToLastSlice(nalus: seq<seq<byte>>): seq<seq<byte>>
    decreases |nalus|
  {
    if nalus == [] || IsSlice(nalus[|nalus| - 1]) then nalus else UpToLastSlice(nalus[..|nalus| - 1])
  }

  function Kept(nalus: seq<seq<byte>>): seq<seq<byte>>
  {
    if nalus == [] then []
    else (if IsSlice(nalus[0]) || IsParameter(nalus[0]) then [nalus[0]] else []) + Kept(nalus[1..])
  }

  function Slices(nalus: seq<seq<byte>>): nat
  {
    if nalus == [] then 0 else (if IsSlice(nalus[0]) then 1 else 0) + Slices(nalus[1..])
  }

  predicate HasSlice(nalus: seq<seq<byte>>)
  {
    exists n :: n in nalus && IsSlice(n)
  }

  lemma {:induction false} UpToCons(n: seq<byte>, rest: seq<seq<byte>>)
    ensures UpToLastSlice([n] + rest) == if HasSlice(rest) || IsSlice(n) then [n] + UpToLastSlice(rest) else []
    decreases |rest|
  {
    hide IsSlice;
    var all := [n] + rest;
    if rest == [] {
      assert all[..0] == [];
    } else {
      var last := rest[|rest| - 1];
      assert all[|all| - 1] == last;
      if !IsSlice(last) {
        var front := rest[..|rest| - 1];
        assert rest == front + [last];
        assert all[..|all| - 1] == [n] + front;
        UpToCons(n, front);
        assert HasSlice(front) <==> HasSlice(rest);
      }
    }
  }

  lemma KeptNone(nalus: seq<seq<byte>>, pending: seq<seq<byte>>)
    requires !HasSlice(nalus)
    ensures Group(nalus, pending) == []
    decreases |nalus|
  {
    hide NalType;
    if nalus != [] {
      assert nalus[0] in nalus && !IsSlice(nalus[0]);
      assert forall n :: n in nalus[1..] ==> n in nalus;
      KeptNone(nalus[1..], pending);
      KeptNone(nalus[1..], pending + [nalus[0]]);
    }
  }

  /** The units of all access units, joined. */
  function Joined(nalus: seq<seq<byte>>, pending: seq<seq<byte>>): seq<seq<byte>>
  {
    Concat(UnitNals(Group(nalus, pending)))
  }

  lemma JoinedStep(n: seq<byte>, rest: seq<seq<byte>>, pending: seq<seq<byte>>)
    ensures Joined([n] + rest, pending) == if IsParameter(n) then Joined(rest, pending + [n])
                                           else if IsSlice(n) then pending + ([n] + Joined(rest, []))
                                           else Joined(rest, pending)
  {
    hide NalType, UnitNals;
    var all := [n] + rest;
    assert all[1..] == rest;
    if !IsParameter(n) && IsSlice(n) {
      UnitNalsCons(AccessUnit(pending + [n], NalType(n) == 5), Group(rest, []));
    }
  }

  /** Joining the access units gives the kept units up to the last slice, in order. */
  lemma {:induction false} GroupKeeps(nalus: seq<seq<byte>>, pending: seq<seq<byte>>)
    ensures Joined(nalus, pending) == if HasSlice(nalus) then pending + Kept(UpToLastSlice(nalus)) else []
    decreases |nalus|
  {
    hide Joined, HasSlice, UpToLastSlice, Kept, IsSlice, IsParameter;
    EmptyHasNone(nalus);
    if !HasSlice(nalus) {
      JoinedNone(nalus, pending);
    } else {
      var n, rest := nalus[0], nalus[1..];
      assert nalus == [n] + rest;
      KeptSplit(n, rest);
      JoinedStep(n, rest, pending);
      ParameterOrSlice(n);
      var kept := Kept(UpToLastSlice(rest));
      if IsParameter(n) {
        GroupKeeps(rest, pending + [n]);
        assert (pending + [n]) + kept == pending + ([n] + kept);
      } else if IsSlice(n) {
        GroupKeeps(rest, []);
        assert [] + kept == kept;
      } else {
        GroupKeeps(rest, pending);
        assert [] + kept == kept;
      }
    }
  }

  lemma ParameterOrSlice(n: seq<byte>)
    ensures !(IsParameter(n) && IsSlice(n))
  {
  }

  lemma EmptyHasNone(nalus: seq<seq<byte>>)
    ensures HasSlice(nalus) ==> nalus != []
  {
  }

  lemma JoinedNone(nalus: seq<seq<byte>>, pending: seq<seq<byte>>)
    requires !HasSlice(nalus)
    ensures Joined(nalus, pending) == []
  {
    KeptNone(nalus, pending);
  }

  lemma UnitNalsCons(au: AccessUnit, g: seq<AccessUnit>)
    ensures Concat(UnitNals([au] + g)) == au.nalus + Concat(UnitNals(g))
  {
    assert ([au] + g)[1..] == g;
    assert UnitNals([au] + g)[1..] == UnitNals(g);
  }

  lemma KeptSplit(n: seq<byte>, rest: seq<seq<byte>>)
    requires HasSlice([n] + rest)
    ensures Kept(UpToLastSlice([n] + rest)) == (if IsSlice(n) || IsParameter(n) then [n] else []) + Kept(UpToLastSlice(rest))
    ensures HasSlice(rest) || IsSlice(n)
    ensures !HasSlice(rest) ==> Kept(UpToLastSlice(rest)) == []
  {
    hide NalType, IsParameter;
    UpToCons(n, rest);
    UpToNone(rest);
    var up := UpToLastSlice(rest);
    assert ([n] + up)[1..] == up;
  }

  lemma UpToNone(nalus: seq<seq<byte>>)
    ensures !HasSlice(nalus) ==> UpToLastSlice(nalus) == []
    decreases |nalus|
  {
    if nalus != [] && !HasSlice(nalus) {
      assert nalus[|nalus| - 1] in nalus;
      UpToNone(nalus[..|nalus| - 1]);
    }
  }

  /** One sample per slice; the slice is its last unit, marked as a sync sample exactly when it is an IDR slice. */
  ghost predicate EndsInSlice(au: AccessUnit)
  {
    && au.nalus != []
    && IsSlice(au.nalus[|au.nalus| - 1])
    && (au.isIdr <==> NalType(au.nalus[|au.nalus| - 1]) == 5)
    && forall k :: 0 <= k < |au.nalus| - 1 ==> IsParameter(au.nalus[k])
  }

  lemma {:induction false} GroupSlices(nalus: seq<seq<byte>>, pending: seq<seq<byte>>)
    requires forall n :: n in pending ==> IsParameter(n)
    ensures |Group(nalus, pending)| == Slices(nalus)
    ensures forall au :: au in Group(nalus, pending) ==> EndsInSlice(au)
    decreases |nalus|
  {
    hide NalType;
    if nalus != [] {
      var n := nalus[0];
      if IsParameter(n) {
        GroupSlices(nalus[1..], pending + [n]);
      } else if IsSlice(n) {
        GroupSlices(nalus[1..], []);
        assert EndsInSlice(AccessUnit(pending + [n], NalType(n) == 5));
      } else {
        GroupSlices(nalus[1..], pending);
      }
    }
  }

  lemma {:induction false} UnitsFit(aus: seq<AccessUnit>)
    requires TotalLength(UnitsData(aus)) < 0x1_0000_0000
    ensures NalsFit(aus)
  {
    hide LengthPrefixed;
    if aus != [] {
      assert UnitsData(aus)[1..] == UnitsData(aus[1..]);
      UnitsFit(aus[1..]);
      forall n | n in aus[0].nalus ensures |n| < 0x1_0000_0000 { PrefixedLonger(aus[0].nalus, n); }
      forall k, n | 0 <= k < |aus| && n in aus[k].nalus ensures |n| < 0x1_0000_0000
      {
        if k > 0 { assert aus[k] == aus[1..][k - 1]; }
      }
    }
  }

  lemma {:induction false} PrefixedLonger(nalus: seq<seq<byte>>, n: seq<byte>)
    requires n in nalus
    ensures |Concat(Prefixed(nalus))| >= |n|
  {
    assert Prefixed(nalus)[1..] == Prefixed(nalus[1..]);
    if n != nalus[0] { PrefixedLonger(nalus[1..], n); }
  }

  /** The samples of a video fragment hold exactly the parameter, SEI and slice units up to the last slice, in
      order, with one sample per slice. */
  lemma VideoFragmentKeeps(s: State, v: VideoInput)
    requires VideoPiece(s, v).Valid()
    ensures var nals := NalsOfSamples(VideoPiece(s, v).data);
            && nals.Some? && |nals.value| == Slices(v.nalus)
            && Concat(nals.value) == Kept(UpToLastSlice(v.nalus))
  {
    hide MoofSize, RowFits, FrameDuration, VideoSamples, CutNals, SizesMatch;
    var aus := Group(v.nalus, []);
    UnitsFit(aus);
    UnitsBack(aus);
    GroupKeeps(v.nalus, []);
    GroupSlices(v.nalus, []);
    UpToNone(v.nalus);
    UnitNalsLength(aus);
  }

  lemma UnitNalsLength(aus: seq<AccessUnit>)
    ensures |UnitNals(aus)| == |aus|
  {
  }

  // ------------------------------------------------------------------ presentation times

  /** When sample `k` of a fragment is decoded. */
  function DecodeTime(f: Fragment, k: nat): int
    requires k <= |f.samples|
  {
    f.baseDecodeTime + Ticks(f.samples[..k])
  }

  lemma {:induction false} RowAt(samples: seq<SampleEntry>, f: bool, c: bool, k: nat)
    requires k < |samples|
    ensures |Rows(samples, f, c)| == |samples| && Rows(samples, f, c)[k] == Row(samples[k], f, c)
    ensures Ticks(Rows(samples, f, c)[..k]) == Ticks(samples[..k])
  {
    hide Row;
    if k > 0 {
      RowAt(samples[1..], f, c, k - 1);
      assert Rows(samples, f, c)[..k][1..] == Rows(samples[1..], f, c)[..k - 1];
      assert samples[..k][1..] == samples[1..][..k - 1];
      assert Row(samples[0], f, c).duration == samples[0].duration by { RowDuration(samples[0], f, c); }
    } else {
      RowsLength(samples, f, c);
    }
  }

  lemma RowDuration(s: SampleEntry, f: bool, c: bool)
    ensures Row(s, f, c).duration == s.duration
  {
  }

  lemma RowsLength(samples: seq<SampleEntry>, f: bool, c: bool)
    ensures |Rows(samples, f, c)| == |samples|
  {
  }

  lemma {:induction false} VideoSampleAt(aus: seq<AccessUnit>, i: nat, pts: seq<int>, d: nat, k: nat)
    requires k < |aus|
    ensures |VideoSamples(aus, i, pts, d)| == |aus|
    ensures VideoSamples(aus, i, pts, d)[k] == VideoSample(aus[k], i + k, pts, d)
    ensures Ticks(VideoSamples(aus, i, pts, d)[..k]) == k * d
    decreases |aus|
  {
    hide VideoSample;
    var all := VideoSamples(aus, i, pts, d);
    var rest := VideoSamples(aus[1..], i + 1, pts, d);
    assert all[1..] == rest;
    if k > 0 {
      VideoSampleAt(aus[1..], i + 1, pts, d, k - 1);
      assert all[..k][1..] == rest[..k - 1];
      SampleDuration(aus[0], i, pts, d);
      assert k * d == d + (k - 1) * d by { assert k == 1 + (k - 1); Distribute(k - 1, d); }
    } else {
      VideoSamplesLength(aus, i, pts, d);
    }
  }

  lemma VideoSamplesLength(aus: seq<AccessUnit>, i: nat, pts: seq<int>, d: nat)
    ensures |VideoSamples(aus, i, pts, d)| == |aus|
    decreases |aus|
  {
    if aus != [] { VideoSamplesLength(aus[1..], i + 1, pts, d); }
  }

  lemma {:induction false} LeastIsLeast(s: seq<int>)
    requires s != []
    ensures Least(s) in s && forall k :: 0 <= k < |s| ==> Least(s) <= s[k]
  {
    if |s| > 1 {
      LeastIsLeast(s[1..]);
      assert forall k :: 1 <= k < |s| ==> s[k] == s[1..][k - 1];
    }
  }

  /** A fragment read back shows sample `k`, if it has a time stamp, at the fragment's base plus the distance of
      its time stamp from the least one of the segment. */
  lemma PresentationTimes(s: State, v: VideoInput, k: nat)
    requires k < |Group(v.nalus, [])| && k < |v.pts|
    ensures var f := VideoPiece(s, v).Read().fragment;
            && |f.samples| == |Group(v.nalus, [])|
            && f.baseDecodeTime == U32(s.videoDecodeTime)
            && f.samples[k].cto.Some?
            && DecodeTime(f, k) + f.samples[k].cto.value == f.baseDecodeTime + (v.pts[k] - Least(v.pts))
  {
    hide MoofSize, FrameDuration, Group, VideoSamples, Rows, Least, UnitsData;
    FrameDurationPositive(v.pts);
    var aus, d := Group(v.nalus, []), FrameDuration(v.pts);
    var samples := VideoSamples(aus, 0, v.pts, d);
    VideoSampleAt(aus, 0, v.pts, d, k);
    assert samples[k].cto.Some?;
    RowAt(samples, HasFlags(samples), HasCto(samples), k);
  }

  // ------------------------------------------------------------------ from transport packets to fragments

  /** A segment as a multiplexer writes it. */
  datatype Muxed = Muxed(packets: seq<MpegTs.Packet>, tail: seq<byte>, pmtPid: nat, table: seq<MpegTs.EsInfo>)
  {
    ghost predicate Valid()
    {
      && MpegTs.AllValid(packets) && |tail| < 188
      && MpegTs.TablesAre(packets, pmtPid, table) && MpegTs.PmtFollows(packets, pmtPid, false)
      && packets != [] && packets[0].Ts?
    }

    ghost function Bytes(): seq<byte>
      requires MpegTs.AllValid(packets)
    {
      MpegTs.Segment(packets, tail)
    }

    /** The payload bytes of the first stream of a type. */
    ghost function Carried(streamType: byte): Option<seq<byte>>
    {
      match MpegTs.FirstOfType(MpegTs.StreamsIn(packets, table), streamType)
      case None => None
      case Some(stream) => Some(Concat(stream.data))
    }
  }

  /** The H.264 stream of a segment: PES packets whose payloads are the NAL units in Annex B framing. */
  ghost predicate CarriesVideo(m: Muxed, pes: seq<Pes.Packet>, units: seq<AnnexB.Framed>, zeros: nat)
  {
    && m.Carried(0x1B) == Some(Pes.Stream(pes))
    && (forall p :: p in pes ==> p.Valid())
    && Pes.Payloads(pes) == AnnexB.Frame(units, zeros)
    && (forall u :: u in units ==> AnnexB.IsNal(u.nal))
  }

  /** The AAC stream: PES packets whose payloads are ADTS frames, cut anywhere. */
  ghost predicate CarriesAudio(m: Muxed, pes: seq<Pes.Packet>, frames: seq<Adts.AacFrame>)
  {
    && m.Carried(0x0F) == Some(Pes.Stream(pes))
    && (forall p :: p in pes ==> p.Valid())
    && (forall f :: f in frames ==> f.Valid())
    && Pes.Payloads(pes) == Adts.Encode(frames)
  }

  lemma VideoInputBack(track: Option<TransmuxTrack>, m: Muxed, pes: seq<Pes.Packet>, units: seq<AnnexB.Framed>, zeros: nat)
    requires m.Valid() && CarriesVideo(m, pes, units, zeros) && track != Some(Audio)
    ensures VideoInputOf(track, MpegTs.Demux(m.Bytes())) == VideoInput(true, AnnexB.Nals(units), Pes.Stamps(pes))
  {
    MpegTs.DemuxBack(m.packets, m.tail, m.pmtPid, m.table);
    hide MpegTs.TablesAre, MpegTs.PmtFollows, MpegTs.Demux, MpegTs.StreamsIn, MpegTs.FirstOfType, MpegTs.Segment, MpegTs.AllValid,
         AnnexB.Units, AnnexB.Frame, AnnexB.Nals, AnnexB.IsNal, Pes.Elementary, Pes.PtsList, Pes.Stream, Pes.Packet.Valid, Concat,
         IsMpegTs;
    Pes.PayloadsRecovered(pes);
    Pes.StampsRecovered(pes);
    AnnexB.FrameRoundTrip(units, zeros);
  }

  lemma AudioInputBack(track: Option<TransmuxTrack>, m: Muxed, pes: seq<Pes.Packet>, frames: seq<Adts.AacFrame>)
    requires m.Valid() && CarriesAudio(m, pes, frames) && track != Some(Video)
    ensures AudioInputOf(track, MpegTs.Demux(m.Bytes())) == AudioInput(true, Adts.AllAt(frames, 0), Adts.Payloads(frames))
  {
    MpegTs.DemuxBack(m.packets, m.tail, m.pmtPid, m.table);
    hide MpegTs.TablesAre, MpegTs.PmtFollows, MpegTs.Demux, MpegTs.StreamsIn, MpegTs.FirstOfType, MpegTs.Segment, MpegTs.AllValid,
         Adts.Frames, Adts.RawParts, Adts.AacFrame.Valid, Pes.Elementary, Pes.Stream, Pes.Packet.Valid, Concat, IsMpegTs;
    Pes.PayloadsRecovered(pes);
    Adts.FramesRecovered(frames);
  }

  // ------------------------------------------------------------------ from fragments to media

  ghost predicate AllFit(es: seq<Emission>)
  {
    forall e :: e in es ==> e.piece.Valid()
  }

  /** The media segment of a call, read back: one entry per fragment handed out, in order. */
  lemma MediaRead(es: seq<Emission>)
    requires AllFit(es)
    ensures var m := ReadMedia(MediaSegment(es));
            && m.Some? && |m.value| == |es|
            && forall k :: 0 <= k < |es| ==> m.value[k] == es[k].piece.Read()
  {
    hide Piece.Valid, Piece.Read, ReadMedia, MediaBytes;
    PiecesAre(es);
    MediaBack(Pieces(es));
    MediaOfAre(Pieces(es));
  }

  lemma {:induction false} PiecesAre(es: seq<Emission>)
    ensures |Pieces(es)| == |es| && forall k :: 0 <= k < |es| ==> Pieces(es)[k] == es[k].piece
  {
    if es != [] {
      PiecesAre(es[1..]);
      assert forall k :: 1 <= k < |es| ==> es[k] == es[1..][k - 1];
    }
  }

  lemma {:induction false} MediaOfAre(ps: seq<Piece>)
    ensures |MediaOf(ps)| == |ps| && forall k :: 0 <= k < |ps| ==> MediaOf(ps)[k] == ps[k].Read()
  {
    hide Piece.Read;
    if ps != [] {
      MediaOfAre(ps[1..]);
      assert forall k :: 1 <= k < |ps| ==> ps[k] == ps[1..][k - 1];
    }
  }

  lemma MuxedIsTs(m: Muxed)
    requires m.Valid()
    ensures IsMpegTs(m.Bytes())
  {
    hide MpegTs.TablesAre, MpegTs.PmtFollows, MpegTs.Packet.Adaptation;
    var p := m.packets[0];
    assert p in m.packets;
    assert p.Bytes()[0] == p.Header()[0];
    assert m.Bytes()[0] == p.Bytes()[0];
  }

  lemma NoTag(d: seq<byte>)
    requires IsMpegTs(d) || IsAdts(d)
    ensures WithoutId3(d) == d
  {
  }

  /** What a call on an MPEG-TS segment hands out. */
  lemma TsEmissions(s: State, m: Muxed, a: AudioInput, v: VideoInput)
    requires m.Valid() && Step(s, m.Bytes()).outcome.Emitted?
    requires a == AudioInputOf(s.track, MpegTs.Demux(m.Bytes())) && v == VideoInputOf(s.track, MpegTs.Demux(m.Bytes()))
    ensures var declared := Declare(WithVideoConfig(WithAudioConfig(s, a), v));
            && Step(s, m.Bytes()).outcome.emissions == VideoTurn(declared, v).1 + AudioTurn(VideoTurn(declared, v).0, a).1
            && Step(s, m.Bytes()).state == AudioTurn(VideoTurn(declared, v).0, a).0
  {
    hide MpegTs.TablesAre, MpegTs.PmtFollows, MpegTs.Demux, MpegTs.AllValid, MpegTs.Segment, AudioInputOf, VideoInputOf, WithoutId3,
         Declare, WithVideoConfig, WithAudioConfig, VideoTurn, AudioTurn, Codecs, IsMpegTs;
    MuxedIsTs(m);
    NoTag(m.Bytes());
  }

  /** Sample flags as section 8.8.3.1 of ISO/IEC 14496-12 lays them out: whether the sample needs others (1) or not (2), and
      whether it is no sync sample. */
  function DependsOn(flags: int): int
  {
    flags / 0x100_0000 % 4
  }

  predicate NonSync(flags: int)
  {
    flags / 0x1_0000 % 2 == 1
  }

  /** The marks of a sample that ends in an IDR slice, or in another. */
  predicate Marked(s: SampleEntry, idr: bool)
  {
    s.flags.Some? && DependsOn(s.flags.value) == (if idr then 2 else 1) && NonSync(s.flags.value) == !idr
  }

  /** What row `k` of a video fragment says. */
  lemma SampleSays(s: State, v: VideoInput, k: nat)
    requires k < |Group(v.nalus, [])|
    ensures var f := VideoPiece(s, v).Read().fragment;
            && |f.samples| == |Group(v.nalus, [])|
            && f.samples[k].duration == FrameDuration(v.pts)
            && Marked(f.samples[k], Group(v.nalus, [])[k].isIdr)
            && (k >= |v.pts| ==> f.samples[k].cto == Some(0))
  {
    hide MoofSize, FrameDuration, Group, VideoSamples, Rows, Least, UnitsData;
    FrameDurationPositive(v.pts);
    var aus, d := Group(v.nalus, []), FrameDuration(v.pts);
    var samples := VideoSamples(aus, 0, v.pts, d);
    VideoSampleAt(aus, 0, v.pts, d, k);
    assert samples[k].cto.Some? && samples[k].flags.Some?;
    RowAt(samples, HasFlags(samples), HasCto(samples), k);
  }

  lemma {:induction false} UnitNalsAt(aus: seq<AccessUnit>, k: nat)
    requires k < |aus|
    ensures |UnitNals(aus)| == |aus| && UnitNals(aus)[k] == aus[k].nalus
  {
    UnitNalsLength(aus);
    if k > 0 { UnitNalsAt(aus[1..], k - 1); }
  }

  /** And which slice it ends in. */
  lemma SampleEnds(s: State, v: VideoInput, k: nat)
    requires VideoPiece(s, v).Valid() && k < |Group(v.nalus, [])|
    ensures var nals := NalsOfSamples(VideoPiece(s, v).data);
            && nals.Some? && k < |nals.value| && nals.value[k] != []
            && (Group(v.nalus, [])[k].isIdr <==> NalType(nals.value[k][|nals.value[k]| - 1]) == 5)
  {
    hide MoofSize, RowFits, FrameDuration, VideoSamples, CutNals, SizesMatch, Group, UnitsData, NalType;
    var aus := Group(v.nalus, []);
    UnitsFit(aus);
    UnitsBack(aus);
    UnitNalsAt(aus, k);
    GroupSlices(v.nalus, []);
    assert aus[k] in aus;
  }

  /** The first fragment of the media segment holds exactly the parameter, SEI and slice units up to the last
      slice, in order, one sample per slice, and shows sample `k` at its base plus the distance of the `k`-th time
      stamp from the least one. Every sample lasts one frame, and is a sync sample that needs no other exactly when its slice is
      an IDR slice. */
  ghost predicate ShowsVideo(d: seq<byte>, nalus: seq<seq<byte>>, pts: seq<int>)
  {
    var media := ReadMedia(d);
    && media.Some? && media.value != []
    && var f, nals := media.value[0].fragment, NalsOfSamples(media.value[0].data);
    && nals.Some? && |nals.value| == |f.samples| == Slices(nalus)
    && Concat(nals.value) == Kept(UpToLastSlice(nalus))
    && (forall k :: 0 <= k < |f.samples| && k < |pts| ==>
          f.samples[k].cto.Some? && DecodeTime(f, k) + f.samples[k].cto.value == f.baseDecodeTime + (pts[k] - Least(pts)))
    && forall k :: 0 <= k < |f.samples| ==>
         && f.samples[k].duration == FrameDuration(pts) && (k >= |pts| ==> f.samples[k].cto == Some(0))
         && nals.value[k] != [] && Marked(f.samples[k], NalType(nals.value[k][|nals.value[k]| - 1]) == 5)
  }

  lemma VideoFirst(s: State, v: VideoInput, es: seq<Emission>)
    requires AllFit(es) && es != [] && es[0] == Emission(Video, VideoPiece(s, v))
    ensures ShowsVideo(MediaSegment(es), v.nalus, v.pts)
  {
    hide VideoPiece, ReadMedia, MediaSegment, Group, NalsOfSamples, Kept, UpToLastSlice, Slices, Piece.Valid, Least, Rows, Marked,
         FrameDuration, NalType;
    MediaRead(es);
    assert es[0] in es;
    VideoFragmentKeeps(s, v);
    VideoRead(s, v);
    var f := VideoPiece(s, v).Read().fragment;
    forall k | 0 <= k < |f.samples| && k < |v.pts|
      ensures f.samples[k].cto.Some? && DecodeTime(f, k) + f.samples[k].cto.value == f.baseDecodeTime + (v.pts[k] - Least(v.pts))
    {
      PresentationTimes(s, v, k);
    }
    var nals := NalsOfSamples(VideoPiece(s, v).data);
    forall k | 0 <= k < |f.samples|
      ensures f.samples[k].duration == FrameDuration(v.pts) && (k >= |v.pts| ==> f.samples[k].cto == Some(0))
      ensures nals.value[k] != [] && Marked(f.samples[k], NalType(nals.value[k][|nals.value[k]| - 1]) == 5)
    {
      SampleSays(s, v, k);
      SampleEnds(s, v, k);
    }
  }

  /** The last fragment of the media segment holds the given frames, 1024 ticks each. */
  ghost predicate ShowsAudio(d: seq<byte>, data: seq<seq<byte>>)
  {
    var media := ReadMedia(d);
    && media.Some? && media.value != []
    && var last := media.value[|media.value| - 1];
    && last.data == data && |last.fragment.samples| == |data|
    && forall k :: 0 <= k < |data| ==> last.fragment.samples[k].duration == 1024
  }

  lemma AudioLast(s: State, data: seq<seq<byte>>, es: seq<Emission>)
    requires AllFit(es) && es != [] && es[|es| - 1] == Emission(Audio, AudioPiece(s, data))
    ensures ShowsAudio(MediaSegment(es), data)
  {
    hide AudioPiece, ReadMedia, MediaSegment, Piece.Valid;
    MediaRead(es);
    AudioRead(s, data);
  }

  /** From transport packets to the player, video: whatever way the multiplexer cut, interleaved and padded the
      stream, the segment's video fragment shows its NAL units at its time stamps. */
  lemma VideoSurvives(s: State, m: Muxed, pes: seq<Pes.Packet>, units: seq<AnnexB.Framed>, zeros: nat)
    requires m.Valid() && CarriesVideo(m, pes, units, zeros) && s.track != Some(Audio)
    requires Step(s, m.Bytes()).outcome.Emitted? && AllFit(Step(s, m.Bytes()).outcome.emissions)
    requires var es := Step(s, m.Bytes()).outcome.emissions; es != [] && es[0].kind == Video
    ensures ShowsVideo(MediaSegment(Step(s, m.Bytes()).outcome.emissions), AnnexB.Nals(units), Pes.Stamps(pes))
  {
    var a := AudioInputOf(s.track, MpegTs.Demux(m.Bytes()));
    var v := VideoInputOf(s.track, MpegTs.Demux(m.Bytes()));
    hide Step, MpegTs.Demux, AudioInputOf, VideoInputOf, Declare, WithVideoConfig, WithAudioConfig, VideoPiece, AudioPiece,
         CarriesVideo, Muxed.Valid, Group, ShowsVideo, AllFit;
    VideoInputBack(s.track, m, pes, units, zeros);
    TsEmissions(s, m, a, v);
    VideoFirst(Declare(WithVideoConfig(WithAudioConfig(s, a), v)), v, Step(s, m.Bytes()).outcome.emissions);
  }

  lemma VideoRead(s: State, v: VideoInput)
    ensures VideoPiece(s, v).Read().data == VideoPiece(s, v).data
    ensures |VideoPiece(s, v).Read().fragment.samples| == |Group(v.nalus, [])| == Slices(v.nalus)
  {
    hide FrameDuration, Group, VideoSamples, Rows, MoofSize, Slices;
    GroupSlices(v.nalus, []);
    FrameDurationPositive(v.pts);
    var samples := VideoSamples(Group(v.nalus, []), 0, v.pts, FrameDuration(v.pts));
    VideoSamplesLength(Group(v.nalus, []), 0, v.pts, FrameDuration(v.pts));
    RowsLength(samples, HasFlags(samples), HasCto(samples));
  }

  /** From transport packets to the player, audio: the segment's audio fragment holds the AAC frames without
      their headers, in order. */
  lemma AudioSurvives(s: State, m: Muxed, pes: seq<Pes.Packet>, frames: seq<Adts.AacFrame>)
    requires m.Valid() && CarriesAudio(m, pes, frames) && s.track != Some(Video)
    requires Step(s, m.Bytes()).outcome.Emitted? && AllFit(Step(s, m.Bytes()).outcome.emissions)
    requires var es := Step(s, m.Bytes()).outcome.emissions; es != [] && es[|es| - 1].kind == Audio
    ensures ShowsAudio(MediaSegment(Step(s, m.Bytes()).outcome.emissions), Adts.Payloads(frames))
  {
    var a := AudioInputOf(s.track, MpegTs.Demux(m.Bytes()));
    var v := VideoInputOf(s.track, MpegTs.Demux(m.Bytes()));
    hide Step, MpegTs.Demux, AudioInputOf, VideoInputOf, Declare, WithVideoConfig, WithAudioConfig, VideoPiece, AudioPiece,
         CarriesAudio, Muxed.Valid, Group, ShowsAudio, AllFit, Adts.Payloads, Adts.AllAt, VideoTurn, AudioTurn;
    AudioInputBack(s.track, m, pes, frames);
    TsEmissions(s, m, a, v);
    var declared := Declare(WithVideoConfig(WithAudioConfig(s, a), v));
    LastIsAudio(declared, v, a);
    AudioLast(VideoTurn(declared, v).0, a.data, Step(s, m.Bytes()).outcome.emissions);
  }

  lemma LastIsAudio(s: State, v: VideoInput, a: AudioInput)
    ensures var (s1, e1) := VideoTurn(s, v);
            var es := e1 + AudioTurn(s1, a).1;
            es != [] && es[|es| - 1].kind == Audio ==> es[|es| - 1] == Emission(Audio, AudioPiece(s1, a.data))
  {
    hide VideoPiece, AudioPiece, Group, EmitVideo;
  }

  /** A fragment of a kind is handed out for each of the two, video first, exactly under these conditions. */
  lemma TurnsIff(s: State, v: VideoInput, a: AudioInput)
    ensures var (s1, e1) := VideoTurn(s, v);
            var (s2, e2) := AudioTurn(s1, a);
            var es := e1 + e2;
            && (es != [] && es[0].kind == Video <==> s2.videoConfig.Some? && s2.videoTrackId.Some? && Slices(v.nalus) > 0)
            && (es != [] && es[|es| - 1].kind == Audio <==> s2.audioConfig.Some? && s2.audioTrackId.Some? && a.frames != [])
  {
    hide VideoPiece, AudioPiece, Group, Slices, FrameDuration;
    GroupSlices(v.nalus, []);
    FrameDurationPositive(v.pts);
  }

  predicate HasSets(nalus: seq<seq<byte>>)
  {
    FirstNal(nalus, 7).Some? && FirstNal(nalus, 8).Some?
  }

  /** Video can be shown: the configuration is known or in the segment, and the track is part of the init segment or
      there is no init segment yet. */
  predicate CanShowVideo(s: State, nalus: seq<seq<byte>>)
  {
    (s.videoConfig.Some? || HasSets(nalus)) && (s.initSegment.None? || s.videoTrackId.Some?)
  }

  /** Audio needs no more than a place in the init segment: every frame holds a configuration. */
  predicate CanShowAudio(s: State)
  {
    s.initSegment.None? || s.audioTrackId.Some?
  }

  /** Which tracks are declared when a call has noted its configurations. */
  lemma DeclaredIff(s: State, a: AudioInput, v: VideoInput)
    ensures var d := Declare(WithVideoConfig(WithAudioConfig(s, a), v));
            && (v.present ==> (d.videoConfig.Some? && d.videoTrackId.Some? <==> CanShowVideo(s, v.nalus)))
            && (a.frames != [] ==> (d.audioConfig.Some? && d.audioTrackId.Some? <==> CanShowAudio(s)))
  {
    hide FirstNal, InitBytes, Traks, TrakBytes, ConfigOfFrame, ConfigOfSets;
  }

  /** A turn changes neither configurations nor ids. */
  lemma TurnsKeepTracks(s: State, v: VideoInput, a: AudioInput)
    ensures var t := AudioTurn(VideoTurn(s, v).0, a).0;
            && t.videoConfig == s.videoConfig && t.videoTrackId == s.videoTrackId
            && t.audioConfig == s.audioConfig && t.audioTrackId == s.audioTrackId
  {
    hide VideoPiece, AudioPiece, Group, FrameDuration;
    FrameDurationPositive(v.pts);
  }

  /** A call on a segment that carries video shows it exactly when it can be shown and the stream holds a slice. */
  lemma VideoShownIff(s: State, m: Muxed, pes: seq<Pes.Packet>, units: seq<AnnexB.Framed>, zeros: nat)
    requires m.Valid() && CarriesVideo(m, pes, units, zeros) && s.track != Some(Audio) && Step(s, m.Bytes()).outcome.Emitted?
    ensures var es := Step(s, m.Bytes()).outcome.emissions;
            var nalus := AnnexB.Nals(units);
            es != [] && es[0].kind == Video <==> CanShowVideo(s, nalus) && Slices(nalus) > 0
  {
    var a := AudioInputOf(s.track, MpegTs.Demux(m.Bytes()));
    var v := VideoInputOf(s.track, MpegTs.Demux(m.Bytes()));
    hide Step, MpegTs.Demux, AudioInputOf, VideoInputOf, Declare, WithVideoConfig, WithAudioConfig, VideoTurn, AudioTurn,
         CarriesVideo, Muxed.Valid, Slices, CanShowVideo, CanShowAudio;
    VideoInputBack(s.track, m, pes, units, zeros);
    TsEmissions(s, m, a, v);
    var d := Declare(WithVideoConfig(WithAudioConfig(s, a), v));
    TurnsIff(d, v, a);
    DeclaredIff(s, a, v);
    TurnsKeepTracks(d, v, a);
  }

  /** And audio exactly when it can be shown and there is a frame. */
  lemma AudioShownIff(s: State, m: Muxed, pes: seq<Pes.Packet>, frames: seq<Adts.AacFrame>)
    requires m.Valid() && CarriesAudio(m, pes, frames) && s.track != Some(Video) && Step(s, m.Bytes()).outcome.Emitted?
    ensures var es := Step(s, m.Bytes()).outcome.emissions;
            es != [] && es[|es| - 1].kind == Audio <==> CanShowAudio(s) && frames != []
  {
    var a := AudioInputOf(s.track, MpegTs.Demux(m.Bytes()));
    var v := VideoInputOf(s.track, MpegTs.Demux(m.Bytes()));
    hide Step, MpegTs.Demux, AudioInputOf, VideoInputOf, Declare, WithVideoConfig, WithAudioConfig, VideoTurn, AudioTurn,
         CarriesAudio, Muxed.Valid, Slices, Adts.AllAt, CanShowVideo, CanShowAudio;
    AudioInputBack(s.track, m, pes, frames);
    AllAtNone(frames);
    TsEmissions(s, m, a, v);
    var d := Declare(WithVideoConfig(WithAudioConfig(s, a), v));
    TurnsIff(d, v, a);
    DeclaredIff(s, a, v);
    TurnsKeepTracks(d, v, a);
  }

  lemma AllAtNone(frames: seq<Adts.AacFrame>)
    ensures Adts.AllAt(frames, 0) == [] <==> frames == []
  {
  }

  lemma {:induction false} AudioSampleAt(data: seq<seq<byte>>, k: nat)
    requires k < |data|
    ensures |AudioSamples(data)| == |data| && AudioSamples(data)[k] == SampleEntry(1024, |data[k]|, None, None)
  {
    if k > 0 { AudioSampleAt(data[1..], k - 1); } else { AudioSamplesLength(data); }
  }

  lemma AudioSamplesLength(data: seq<seq<byte>>)
    ensures |AudioSamples(data)| == |data|
  {
  }

  lemma AudioRead(s: State, data: seq<seq<byte>>)
    ensures var r := AudioPiece(s, data).Read();
            && r.data == data && |r.fragment.samples| == |data|
            && forall k :: 0 <= k < |data| ==> r.fragment.samples[k].duration == 1024
  {
    hide MoofSize, Rows, AudioSamples;
    var samples := AudioSamples(data);
    AudioSamplesLength(data);
    RowsLength(samples, HasFlags(samples), HasCto(samples));
    forall k | 0 <= k < |data| ensures AudioPiece(s, data).Read().fragment.samples[k].duration == 1024
    {
      AudioSampleAt(data, k);
      RowAt(samples, HasFlags(samples), HasCto(samples), k);
    }
  }

  /** From an ADTS segment to the player: one fragment, whose samples are the AAC frames without their headers. */
  lemma AdtsSurvives(s: State, frames: seq<Adts.AacFrame>)
    requires (forall f :: f in frames ==> f.Valid()) && frames != [] && s.track != Some(Video)
    requires Step(s, Adts.Encode(frames)).outcome.Emitted? && AllFit(Step(s, Adts.Encode(frames)).outcome.emissions)
    ensures |Step(s, Adts.Encode(frames)).outcome.emissions| == 1
    ensures ShowsAudio(MediaSegment(Step(s, Adts.Encode(frames)).outcome.emissions), Adts.Payloads(frames))
  {
    var d := Adts.Encode(frames);
    AdtsStarts(frames);
    NoTag(d);
    Adts.FramesRecovered(frames);
    hide Adts.Frames, Adts.RawParts, Adts.Encode, Adts.AllAt, Adts.Payloads, WithoutId3, ShowsAudio, AudioPiece, DeclareAudioOnly,
         Codecs, IsMpegTs, IsAdts, AllFit, StepMpegTs;
    AudioLast(DeclareAudioOnly(s, Adts.Frames(d, 0)[0]), Adts.Payloads(frames), Step(s, d).outcome.emissions);
  }

  lemma AdtsStarts(frames: seq<Adts.AacFrame>)
    requires (forall f :: f in frames ==> f.Valid()) && frames != []
    ensures IsAdts(Adts.Encode(frames)) && !IsMpegTs(Adts.Encode(frames)) && Adts.AllAt(frames, 0) != []
  {
    assert frames[0] in frames;
    var h := frames[0].Header();
    var d := Adts.Encode(frames);
    assert d[0] == h[0] && d[1] == h[1];
    Adts.HeaderBits(frames[0]);
  }
}
