/**
 The initialization segment: `ftyp`, and a `moov` with one `trak` and one `mvex` per track,
 down to the AAC and H.264 sample entries.
 */
module InitSegment {
  import opened Bytes
  import opened Wrappers
  import opened Buffer
  import opened Mp4

  datatype AudioTrackConfig = AudioTrackConfig(audioObjectType: nat, samplingFrequencyIndex: nat,
                                               channelConfiguration: nat, sampleRate: nat,
                                               audioSpecificConfig: seq<byte>)

  /** The profile bytes are `undefined` when the parameter set is too short to hold them. */
  datatype VideoTrackConfig = VideoTrackConfig(width: int, height: int, sps: seq<byte>, pps: seq<byte>,
                                               profileIdc: Option<byte>, profileCompatibility: Option<byte>,
                                               levelIdc: Option<byte>)

  // ------------------------------------------------------------------ descriptors with nested lengths

  /** A descriptor: a tag, one length byte, and the payload. */
  function Descriptor(tag: byte, payload: seq<byte>): seq<byte>
  {
    [tag, |payload| % 256] + payload
  }

  function DecoderConfig(asc: seq<byte>): seq<byte>
  {
    Descriptor(0x04, [0x40, 0x15, 0, 0, 0] + BE32(0) + BE32(0) + Descriptor(0x05, asc))
  }

  function EsDescriptor(asc: seq<byte>): seq<byte>
  {
    Descriptor(0x03, BE16(1) + [0] + DecoderConfig(asc) + Descriptor(0x06, [0x02]))
  }

  /** Writes the innermost descriptor first, because each length counts what is nested inside. */
  method WriteEsDescriptor(asc: seq<byte>) returns (bytes: seq<byte>)
    ensures bytes == EsDescriptor(asc)
  {
    hide BE32, BE16;
    var dsi := WriteDescriptor(0x05, asc);
    var fields := WriteDecoderFields();
    var dcd := WriteDescriptor(0x04, fields + dsi);
    var slc := WriteDescriptor(0x06, [0x02]);
    assert fields + dsi == [0x40, 0x15, 0, 0, 0] + BE32(0) + BE32(0) + Descriptor(0x05, asc);
    bytes := WriteDescriptor(0x03, BE16(1) + [0] + dcd + slc);
  }

  method WriteDescriptor(tag: byte, payload: seq<byte>) returns (bytes: seq<byte>)
    ensures bytes == Descriptor(tag, payload)
  {
    var writer := new BufferWriter(2 + |payload|);
    writer.WriteUint8(tag);
    writer.WriteUint8(|payload|);
    writer.WriteBytes(payload);
    bytes := writer.ToUint8Array();
  }

  method WriteDecoderFields() returns (bytes: seq<byte>)
    ensures bytes == [0x40, 0x15, 0, 0, 0] + BE32(0) + BE32(0)
  {
    hide BE32;
    var writer := new BufferWriter(13);
    writer.WriteBytes([0x40, 0x15, 0, 0, 0]);
    writer.WriteUint32(0);
    writer.WriteUint32(0);
    bytes := writer.ToUint8Array();
  }

  /** The payload of the descriptor at `i`, if it carries this tag and lies within `d`. */
  function ReadDescriptor(d: seq<byte>, i: nat, tag: byte): Option<seq<byte>>
  {
    if i + 2 <= |d| && d[i] == tag && i + 2 + d[i + 1] <= |d| then Some(d[i + 2..i + 2 + d[i + 1]]) else None
  }

  /** A decoder's way to the codec configuration through the three nested descriptors. */
  function ReadAsc(d: seq<byte>): Option<seq<byte>>
  {
    match ReadDescriptor(d, 0, 0x03)
    case None => None
    case Some(es) =>
      match ReadDescriptor(es, 3, 0x04)
      case None => None
      case Some(dcd) => ReadDescriptor(dcd, 13, 0x05)
  }

  lemma DescriptorBack(front: seq<byte>, tag: byte, payload: seq<byte>, rest: seq<byte>)
    requires |payload| < 256
    ensures ReadDescriptor(front + Descriptor(tag, payload) + rest, |front|, tag) == Some(payload)
  {
    var d := front + Descriptor(tag, payload) + rest;
    assert d[|front|..] == [tag, |payload|] + payload + rest;
    assert d[|front|] == d[|front|..][0] && d[|front| + 1] == d[|front|..][1];
    assert d[|front| + 2..|front| + 2 + |payload|] == d[|front|..][2..2 + |payload|];
  }

  /** The nested lengths lead to exactly the configuration that was written. */
  lemma AscBack(asc: seq<byte>)
    requires |asc| < 200
    ensures ReadAsc(EsDescriptor(asc)) == Some(asc)
  {
    hide BE32, BE16, ReadDescriptor;
    var fields := [0x40, 0x15, 0, 0, 0] + BE32(0) + BE32(0);
    var dcd := fields + Descriptor(0x05, asc);
    var es := BE16(1) + [0] + DecoderConfig(asc) + Descriptor(0x06, [0x02]);
    DescriptorBack(fields, 0x05, asc, []);
    assert dcd + [] == dcd;
    DescriptorBack(BE16(1) + [0], 0x04, dcd, Descriptor(0x06, [0x02]));
    DescriptorBack([], 0x03, es, []);
    assert [] + EsDescriptor(asc) + [] == EsDescriptor(asc);
  }

  // ------------------------------------------------------------------ sample entries

  function Esds(asc: seq<byte>): seq<byte> { FullBoxBytes(Ascii("esds"), 0, 0, EsDescriptor(asc)) }

  function Mp4a(config: AudioTrackConfig): seq<byte>
  {
    BoxBytes(Ascii("mp4a"),
             [Zeros(6) + BE16(1) + Zeros(8) + BE16(config.channelConfiguration) + BE16(16) + BE16(0) + BE16(0)
              + BE32(config.sampleRate * 0x1_0000),
              Esds(config.audioSpecificConfig)])
  }

  function ByteOr0(b: Option<byte>): byte
  {
    match b case None => 0 case Some(v) => v
  }

  function AvcHeader(config: VideoTrackConfig): seq<byte>
  {
    [1, ByteOr0(config.profileIdc), ByteOr0(config.profileCompatibility), ByteOr0(config.levelIdc), 3, 0xE1]
  }

  function AvcRecord(config: VideoTrackConfig): seq<byte>
  {
    AvcHeader(config) + BE16(|config.sps|) + config.sps + [1] + BE16(|config.pps|) + config.pps
  }

  function AvcC(config: VideoTrackConfig): seq<byte> { BoxBytes(Ascii("avcC"), [AvcRecord(config)]) }

  function Avc1(config: VideoTrackConfig): seq<byte>
  {
    BoxBytes(Ascii("avc1"),
             [Zeros(6) + BE16(1) + Zeros(16) + BE16(config.width) + BE16(config.height) + BE32(0x0048_0000)
              + BE32(0x0048_0000) + BE32(0) + BE16(1) + Zeros(32) + BE16(0x18) + BE16(-1),
              AvcC(config)])
  }

  /** Reserved bytes, one by one. */
  method WriteZeros(writer: BufferWriter, n: nat)
    requires writer.Valid() && writer.buffer.Length > 0
    modifies writer, writer.buffer
    ensures writer.Valid() && writer.Contents() == old(writer.Contents()) + Zeros(n)
    ensures (writer.buffer == old(writer.buffer) || fresh(writer.buffer)) && writer.buffer.Length > 0
  {
    assert old(writer.Contents()) + Zeros(0) == old(writer.Contents());
    for i := 0 to n
      invariant writer.Valid() && writer.Contents() == old(writer.Contents()) + Zeros(i)
      invariant (writer.buffer == old(writer.buffer) || fresh(writer.buffer)) && writer.buffer.Length > 0
    {
      writer.WriteUint8(0);
      assert Zeros(i + 1) == Zeros(i) + [0];
    }
  }

  /** Three single bytes. */
  method WriteThree(writer: BufferWriter, x: int, y: int, z: int)
    requires writer.Valid() && writer.buffer.Length > 0
    modifies writer, writer.buffer
    ensures writer.Valid() && writer.Contents() == old(writer.Contents()) + [x % 256, y % 256, z % 256]
    ensures (writer.buffer == old(writer.buffer) || fresh(writer.buffer)) && writer.buffer.Length > 0
  {
    writer.WriteUint8(x);
    writer.WriteUint8(y);
    writer.WriteUint8(z);
    assert [x % 256] + [y % 256] + [z % 256] == [x % 256, y % 256, z % 256];
  }

  /** Three 16-bit fields. */
  method WriteWords(writer: BufferWriter, x: int, y: int, z: int)
    requires writer.Valid() && writer.buffer.Length > 0
    modifies writer, writer.buffer
    ensures writer.Valid() && writer.Contents() == old(writer.Contents()) + (BE16(x) + BE16(y) + BE16(z))
    ensures (writer.buffer == old(writer.buffer) || fresh(writer.buffer)) && writer.buffer.Length > 0
  {
    hide BE16;
    writer.WriteUint16(x);
    writer.WriteUint16(y);
    writer.WriteUint16(z);
  }

  /** Reserved bytes, a 16-bit field, and more reserved bytes. */
  method WriteReserved(writer: BufferWriter, before: nat, x: int, behind: nat)
    requires writer.Valid() && writer.buffer.Length > 0
    modifies writer, writer.buffer
    ensures writer.Valid() && writer.Contents() == old(writer.Contents()) + (Zeros(before) + BE16(x) + Zeros(behind))
    ensures (writer.buffer == old(writer.buffer) || fresh(writer.buffer)) && writer.buffer.Length > 0
  {
    hide BE16, Zeros;
    WriteZeros(writer, before);
    writer.WriteUint16(x);
    WriteZeros(writer, behind);
  }

  /** The AAC sample entry. */
  method Mp4aSampleEntry(config: AudioTrackConfig) returns (bytes: seq<byte>)
    ensures bytes == Mp4a(config)
  {
    hide BE16, BE32, Zeros, BoxBytes, FullBoxBytes, EsDescriptor, Ascii;
    var fields := Mp4aFields(config);
    var descriptor := WriteEsDescriptor(config.audioSpecificConfig);
    var esds := FullBox(Ascii("esds"), 0, 0, descriptor);
    bytes := Box(Ascii("mp4a"), [fields, esds]);
  }

  method Mp4aFields(config: AudioTrackConfig) returns (bytes: seq<byte>)
    ensures bytes == Zeros(6) + BE16(1) + Zeros(8) + BE16(config.channelConfiguration) + BE16(16) + BE16(0) + BE16(0)
                     + BE32(config.sampleRate * 0x1_0000)
  {
    hide BE16, BE32, Zeros;
    var writer := new BufferWriter(28);
    WriteReserved(writer, 6, 1, 8);
    WriteWords(writer, config.channelConfiguration, 16, 0);
    writer.WriteUint16(0);
    writer.WriteUint32(config.sampleRate * 0x1_0000);
    bytes := writer.ToUint8Array();
  }

  /** The H.264 decoder configuration. */
  method WriteAvcRecord(config: VideoTrackConfig) returns (bytes: seq<byte>)
    ensures bytes == AvcRecord(config)
  {
    hide BE16, AvcHeader;
    var writer := new BufferWriter(11 + |config.sps| + |config.pps|);
    WriteAvcHeader(writer, config);
    WriteSet(writer, config.sps);
    writer.WriteUint8(1);
    WriteSet(writer, config.pps);
    bytes := writer.ToUint8Array();
  }

  method WriteAvcHeader(writer: BufferWriter, config: VideoTrackConfig)
    requires writer.Valid() && writer.buffer.Length > 0
    modifies writer, writer.buffer
    ensures writer.Valid() && writer.Contents() == old(writer.Contents()) + AvcHeader(config)
    ensures (writer.buffer == old(writer.buffer) || fresh(writer.buffer)) && writer.buffer.Length > 0
  {
    hide ByteOr0;
    var p, c, l := ByteOr0(config.profileIdc), ByteOr0(config.profileCompatibility), ByteOr0(config.levelIdc);
    WriteThree(writer, 1, p, c);
    WriteThree(writer, l, 3, 0xE1);
    assert AvcHeader(config) == [1, p, c] + [l, 3, 0xE1];
  }

  /** A parameter set behind its length. */
  method WriteSet(writer: BufferWriter, units: seq<byte>)
    requires writer.Valid() && writer.buffer.Length > 0
    modifies writer, writer.buffer
    ensures writer.Valid() && writer.Contents() == old(writer.Contents()) + (BE16(|units|) + units)
    ensures (writer.buffer == old(writer.buffer) || fresh(writer.buffer)) && writer.buffer.Length > 0
  {
    hide BE16;
    writer.WriteUint16(|units|);
    writer.WriteBytes(units);
  }

  /** The H.264 sample entry. */
  method Avc1SampleEntry(config: VideoTrackConfig) returns (bytes: seq<byte>)
    ensures bytes == Avc1(config)
  {
    hide BE16, BE32, Zeros, BoxBytes, AvcRecord, Ascii;
    var fields := Avc1Fields(config);
    var record := WriteAvcRecord(config);
    var avcC := Box(Ascii("avcC"), [record]);
    bytes := Box(Ascii("avc1"), [fields, avcC]);
  }

  method Avc1Fields(config: VideoTrackConfig) returns (bytes: seq<byte>)
    ensures bytes == Zeros(6) + BE16(1) + Zeros(16) + BE16(config.width) + BE16(config.height) + BE32(0x0048_0000)
                     + BE32(0x0048_0000) + BE32(0) + BE16(1) + Zeros(32) + BE16(0x18) + BE16(-1)
  {
    hide BE16, BE32, Zeros;
    var writer := new BufferWriter(78);
    WriteReserved(writer, 6, 1, 16);
    WriteSize(writer, config);
    WriteResolution(writer, 0x0048_0000);
    WriteNameAndDepth(writer);
    bytes := writer.ToUint8Array();
  }

  method WriteSize(writer: BufferWriter, config: VideoTrackConfig)
    requires writer.Valid() && writer.buffer.Length > 0
    modifies writer, writer.buffer
    ensures writer.Valid() && writer.Contents() == old(writer.Contents()) + (BE16(config.width) + BE16(config.height))
    ensures (writer.buffer == old(writer.buffer) || fresh(writer.buffer)) && writer.buffer.Length > 0
  {
    hide BE16;
    writer.WriteUint16(config.width);
    writer.WriteUint16(config.height);
  }

  /** Frame count, an empty compressor name, and the depth. */
  method WriteNameAndDepth(writer: BufferWriter)
    requires writer.Valid() && writer.buffer.Length > 0
    modifies writer, writer.buffer
    ensures writer.Valid() && writer.Contents() == old(writer.Contents()) + (BE16(1) + Zeros(32) + BE16(0x18) + BE16(-1))
    ensures (writer.buffer == old(writer.buffer) || fresh(writer.buffer)) && writer.buffer.Length > 0
  {
    hide BE16, Zeros;
    writer.WriteUint16(1);
    WriteZeros(writer, 32);
    writer.WriteUint16(0x18);
    writer.WriteUint16(-1);
  }

  /** The same resolution in both directions, and a reserved field. */
  method WriteResolution(writer: BufferWriter, dpi: int)
    requires writer.Valid() && writer.buffer.Length > 0
    modifies writer, writer.buffer
    ensures writer.Valid() && writer.Contents() == old(writer.Contents()) + (BE32(dpi) + BE32(dpi) + BE32(0))
    ensures (writer.buffer == old(writer.buffer) || fresh(writer.buffer)) && writer.buffer.Length > 0
  {
    hide BE32;
    writer.WriteUint32(dpi);
    writer.WriteUint32(dpi);
    writer.WriteUint32(0);
  }

  function ReadBE16(d: seq<byte>, i: nat): nat
    requires i + 2 <= |d|
  {
    var a: int, b: int := d[i], d[i + 1];
    a * 256 + b
  }

  /** What a decoder learns from the configuration record: profile, compatibility and level, and one parameter set of each kind. */
  datatype AvcSets = AvcSets(profile: seq<byte>, sps: seq<byte>, pps: seq<byte>)

  /** The two parameter sets in a decoder configuration record. */
  function ReadAvcRecord(d: seq<byte>): Option<AvcSets>
  {
    if |d| < 8 || d[0] != 1 || d[4] % 4 != 3 || d[5] % 32 != 1 then None
    else
      var n := ReadBE16(d, 6);
      if |d| < 8 + n + 3 || d[8 + n] != 1 then None
      else
        var m := ReadBE16(d, 8 + n + 1);
        if |d| != 8 + n + 3 + m then None else Some(AvcSets(d[1..4], d[8..8 + n], d[8 + n + 3..]))
  }

  function ProfileBytes(config: VideoTrackConfig): seq<byte>
  {
    [ByteOr0(config.profileIdc), ByteOr0(config.profileCompatibility), ByteOr0(config.levelIdc)]
  }

  /** A decoder reads back both parameter sets, if their lengths fit the 16-bit fields. */
  lemma AvcRecordBack(config: VideoTrackConfig)
    requires |config.sps| < 0x1_0000 && |config.pps| < 0x1_0000
    ensures ReadAvcRecord(AvcRecord(config)) == Some(AvcSets(ProfileBytes(config), config.sps, config.pps))
  {
    hide BE16, ByteOr0, ReadBE16;
    var d := AvcRecord(config);
    var n := |config.sps|;
    assert d[..6] == AvcHeader(config);
    assert d[0] == d[..6][0] && d[4] == d[..6][4] && d[5] == d[..6][5] && d[8 + n] == 1;
    assert d[1..4] == d[..6][1..4] == ProfileBytes(config);
    assert d[6..8] == BE16(n) && d[8..8 + n] == config.sps;
    assert d[8 + n + 1..8 + n + 3] == BE16(|config.pps|) && d[8 + n + 3..] == config.pps;
    BE16Back(d, 6, n);
    BE16Back(d, 8 + n + 1, |config.pps|);
  }

  lemma BE16Back(d: seq<byte>, i: nat, v: nat)
    requires i + 2 <= |d| && v < 0x1_0000 && d[i..i + 2] == BE16(v)
    ensures ReadBE16(d, i) == v
  {
    var b := d[i..i + 2];
    assert b[0] == d[i] && b[1] == d[i + 1];
  }

  // ------------------------------------------------------------------ moov

  function Ftyp(): seq<byte>
  {
    BoxBytes(Ascii("ftyp"), [Ascii("isom") + BE32(0x200) + Ascii("isom") + Ascii("iso6") + Ascii("mp41")])
  }

  function UnityMatrix(): seq<byte>
  {
    BE32(0x1_0000) + BE32(0) + BE32(0) + BE32(0) + BE32(0x1_0000) + BE32(0) + BE32(0) + BE32(0) + BE32(0x4000_0000)
  }

  function Mvhd(): seq<byte>
  {
    FullBoxBytes(Ascii("mvhd"), 0, 0,
                 BE32(0) + BE32(0) + BE32(MPEG_TIMESCALE) + BE32(0) + BE32(0x1_0000) + BE16(0x100) + Zeros(10)
                 + UnityMatrix() + Zeros(24) + BE32(0xFFFF_FFFF))
  }

  function Tkhd(trackId: nat, width: int, height: int, volume: nat): seq<byte>
  {
    FullBoxBytes(Ascii("tkhd"), 0, 3,
                 (BE32(0) + BE32(0) + BE32(trackId))
                 + (Zeros(16) + BE16(0) + BE16(0) + BE16(volume) + BE16(0) + UnityMatrix()
                    + BE32(width * 0x1_0000) + BE32(height * 0x1_0000)))
  }

  function Mdhd(timescale: nat): seq<byte>
  {
    FullBoxBytes(Ascii("mdhd"), 0, 0, BE32(0) + BE32(0) + BE32(timescale) + BE32(0) + BE16(0x55C4) + BE16(0))
  }

  function Hdlr(handlerType: string, name: string): seq<byte>
  {
    FullBoxBytes(Ascii("hdlr"), 0, 0, BE32(0) + Ascii(handlerType) + Zeros(12) + Ascii(name) + [0])
  }

  function Dinf(): seq<byte>
  {
    BoxBytes(Ascii("dinf"), [FullBoxBytes(Ascii("dref"), 0, 0, BE32(1) + FullBoxBytes(Ascii("url "), 0, 1, []))])
  }

  function Stbl(sampleEntry: seq<byte>): seq<byte>
  {
    BoxBytes(Ascii("stbl"),
             [FullBoxBytes(Ascii("stsd"), 0, 0, BE32(1) + sampleEntry),
              FullBoxBytes(Ascii("stts"), 0, 0, BE32(0)), FullBoxBytes(Ascii("stsc"), 0, 0, BE32(0)),
              FullBoxBytes(Ascii("stsz"), 0, 0, BE32(0) + BE32(0)), FullBoxBytes(Ascii("stco"), 0, 0, BE32(0))])
  }

  function AudioMdia(config: AudioTrackConfig): seq<byte>
  {
    BoxBytes(Ascii("mdia"),
             [Mdhd(config.sampleRate), Hdlr("soun", "SoundHandler"),
              BoxBytes(Ascii("minf"),
                       [FullBoxBytes(Ascii("smhd"), 0, 0, BE16(0) + BE16(0)), Dinf(), Stbl(Mp4a(config))])])
  }

  function VideoMdia(config: VideoTrackConfig): seq<byte>
  {
    BoxBytes(Ascii("mdia"),
             [Mdhd(MPEG_TIMESCALE), Hdlr("vide", "VideoHandler"),
              BoxBytes(Ascii("minf"),
                       [FullBoxBytes(Ascii("vmhd"), 0, 1, Zeros(8)), Dinf(), Stbl(Avc1(config))])])
  }

  function Mvex(trackId: nat): seq<byte>
  {
    BoxBytes(Ascii("mvex"), [FullBoxBytes(Ascii("trex"), 0, 0, BE32(trackId) + BE32(1) + BE32(0) + BE32(0) + BE32(0))])
  }

  /** Tracks `i`, `i + 1`, ... each followed by its `mvex`. */
  function TraksAndMvex(traks: seq<seq<byte>>, i: nat): seq<seq<byte>>
  {
    if traks == [] then [] else [traks[0], Mvex(i)] + TraksAndMvex(traks[1..], i + 1)
  }

  method Moov(traks: seq<seq<byte>>) returns (bytes: seq<byte>)
    ensures bytes == MoovBytes(traks)
  {
    hide Mvex, Mvhd, BoxBytes;
    var trakAndMvex: seq<seq<byte>> := [];
    for i := 0 to |traks|
      invariant trakAndMvex + TraksAndMvex(traks[i..], i + 1) == TraksAndMvex(traks, 1)
    {
      assert traks[i..][0] == traks[i] && traks[i..][1..] == traks[i + 1..];
      ghost var rest := TraksAndMvex(traks[i + 1..], i + 2);
      assert (trakAndMvex + [traks[i], Mvex(i + 1)]) + rest == trakAndMvex + ([traks[i], Mvex(i + 1)] + rest);
      trakAndMvex := trakAndMvex + [traks[i], Mvex(i + 1)];
    }
    assert traks[|traks|..] == [];
    assert trakAndMvex + [] == trakAndMvex;
    bytes := Box(Ascii("moov"), [Mvhd()] + trakAndMvex);
  }

  function MoovBytes(traks: seq<seq<byte>>): seq<byte>
  {
    BoxBytes(Ascii("moov"), [Mvhd()] + TraksAndMvex(traks, 1))
  }

  function InitBytes(traks: seq<seq<byte>>): seq<byte>
  {
    Ftyp() + MoovBytes(traks)
  }

  // ------------------------------------------------------------------ reading the declared tracks

  /** The track ids of the `trak` boxes among `nodes`, in order. */
  function TrakIds(nodes: seq<Node>): Option<seq<nat>>
  {
    if nodes == [] then Some([])
    else
      match TrakIds(nodes[1..])
      case None => None
      case Some(rest) =>
        if nodes[0].kind != Ascii("trak") then Some(rest)
        else
          match ReadBoxes(nodes[0].body)
          case None => None
          case Some(children) =>
            if children != [] && children[0].kind == Ascii("tkhd") && |children[0].body| >= 16
            then Some([ReadBE32(children[0].body, 12)] + rest)
            else None
  }

  /** The tracks an init segment declares. */
  function ReadTrackIds(d: seq<byte>): Option<seq<nat>>
  {
    match ReadBoxes(d)
    case None => None
    case Some(nodes) =>
      if |nodes| == 2 && nodes[1].kind == Ascii("moov") then
        match ReadBoxes(nodes[1].body)
        case None => None
        case Some(children) => TrakIds(children)
      else None
  }

  /** A `trak` with the fields its header shows. */
  datatype Trak = Trak(id: nat, width: int, height: int, volume: nat, mdia: seq<byte>)
  {
    function Payloads(): seq<seq<byte>> { [Tkhd(id, width, height, volume), mdia] }

    function Bytes(): seq<byte> { BoxBytes(Ascii("trak"), Payloads()) }
  }

  function TrakBytes(ts: seq<Trak>): seq<seq<byte>>
  {
    if ts == [] then [] else [ts[0].Bytes()] + TrakBytes(ts[1..])
  }

  function Ids(ts: seq<Trak>): seq<nat>
  {
    if ts == [] then [] else [ts[0].id] + Ids(ts[1..])
  }

  /** The header box comes first, whatever media box follows it, as long as that one is readable. */
  ghost predicate Readable(t: Trak)
  {
    && t.id < 0x1_0000_0000
    && ReadBoxes(t.mdia).Some?
    && 8 + TotalLength(t.Payloads()) < 0x1_0000_0000
  }

  lemma TkhdBody(id: nat, w: int, h: int, volume: nat)
    requires id < 0x1_0000_0000
    ensures var p := (BE32(0) + BE32(0) + BE32(id))
                     + (Zeros(16) + BE16(0) + BE16(0) + BE16(volume) + BE16(0) + UnityMatrix()
                        + BE32(w * 0x1_0000) + BE32(h * 0x1_0000));
            Tkhd(id, w, h, volume) == FullBoxBytes(Ascii("tkhd"), 0, 3, p) && |p| == 80
            && ReadBE32(VersionFlags(0, 3) + p, 12) == id
  {
    hide BE32, BE16, ReadBE32, FullBoxBytes, VersionFlags;
    var tail := Zeros(16) + BE16(0) + BE16(0) + BE16(volume) + BE16(0) + UnityMatrix()
                + BE32(w * 0x1_0000) + BE32(h * 0x1_0000);
    var p := (BE32(0) + BE32(0) + BE32(id)) + tail;
    assert |UnityMatrix()| == 36;
    var body := VersionFlags(0, 3) + p;
    assert body[12..16] == BE32(id);
    ReadBE32At(body, 12, id);
  }

  lemma TrakBack(t: Trak)
    requires Readable(t)
    ensures var ns := ReadBoxes(Concat(t.Payloads()));
            && ns.Some? && ns.value != []
            && ns.value[0].kind == Ascii("tkhd") && |ns.value[0].body| >= 16 && ReadBE32(ns.value[0].body, 12) == t.id
  {
    hide BE32, BE16, ReadBE32, FullBoxBytes, VersionFlags, ReadBoxes, UnityMatrix, Tkhd;
    TkhdBody(t.id, t.width, t.height, t.volume);
    var p := (BE32(0) + BE32(0) + BE32(t.id))
             + (Zeros(16) + BE16(0) + BE16(0) + BE16(t.volume) + BE16(0) + UnityMatrix()
                + BE32(t.width * 0x1_0000) + BE32(t.height * 0x1_0000));
    TwoParts(Tkhd(t.id, t.width, t.height, t.volume), t.mdia);
    FullBoxBack(Concat(t.Payloads()), Ascii("tkhd"), 0, 3, p, t.mdia);
  }

  lemma Kinds()
    ensures Ascii("mvhd") != Ascii("trak") && Ascii("mvex") != Ascii("trak")
  {
    assert Ascii("mvhd")[0] != Ascii("trak")[0] && Ascii("mvex")[0] != Ascii("trak")[0];
  }

  lemma MvexBox(i: nat, rest: seq<byte>)
    ensures var p := FullBoxBytes(Ascii("trex"), 0, 0, BE32(i) + BE32(1) + BE32(0) + BE32(0) + BE32(0));
            |p| == 32 &&
            ReadBoxes(Mvex(i) + rest) == match ReadBoxes(rest) case None => None
                                         case Some(ns) => Some([Node(Ascii("mvex"), p)] + ns)
  {
    hide BE32, ReadBoxes, Ascii, BoxBytes;
    var p := FullBoxBytes(Ascii("trex"), 0, 0, BE32(i) + BE32(1) + BE32(0) + BE32(0) + BE32(0));
    Singleton(p);
    BoxBack(Mvex(i) + rest, Ascii("mvex"), [p], rest);
  }

  /** The children of `moov` behind its header: their `trak` boxes carry the ids, in order. */
  lemma {:induction false} TraksBack(ts: seq<Trak>, i: nat)
    requires forall t :: t in ts ==> Readable(t)
    ensures var d := Concat(TraksAndMvex(TrakBytes(ts), i));
            ReadBoxes(d).Some? && TrakIds(ReadBoxes(d).value) == Some(Ids(ts))
  {
    if ts == [] {
      EmptyBoxes();
    } else {
      TraksBack(ts[1..], i + 1);
      hide ReadBoxes, BoxBytes, Mvex, ReadBE32, Readable, TraksAndMvex, Trak.Bytes, Trak.Payloads;
      TraksStep(ts[0], i, TraksAndMvex(TrakBytes(ts[1..]), i + 1), Ids(ts[1..]));
      TraksSplit(ts, i);
    }
  }

  lemma TraksSplit(ts: seq<Trak>, i: nat)
    requires ts != []
    ensures TraksAndMvex(TrakBytes(ts), i) == [ts[0].Bytes(), Mvex(i)] + TraksAndMvex(TrakBytes(ts[1..]), i + 1)
  {
    assert TrakBytes(ts)[1..] == TrakBytes(ts[1..]);
  }

  lemma TraksStep(t: Trak, i: nat, rest: seq<seq<byte>>, ids: seq<nat>)
    requires Readable(t)
    requires ReadBoxes(Concat(rest)).Some? && TrakIds(ReadBoxes(Concat(rest)).value) == Some(ids)
    ensures var d := Concat([t.Bytes(), Mvex(i)] + rest);
            ReadBoxes(d).Some? && TrakIds(ReadBoxes(d).value) == Some([t.id] + ids)
  {
    TrakBack(t);
    Kinds();
    hide ReadBoxes, BoxBytes, Mvex, ReadBE32, Ascii, Trak.Payloads;
    var d := Concat([t.Bytes(), Mvex(i)] + rest);
    var after := Concat(rest);
    ConcatAppend([t.Bytes(), Mvex(i)], rest);
    TwoParts(t.Bytes(), Mvex(i));
    var d2 := Mvex(i) + after;
    assert d == t.Bytes() + d2;
    MvexBox(i, after);
    BoxBack(d, Ascii("trak"), t.Payloads(), d2);
    var ns := ReadBoxes(after).value;
    var m, k := ReadBoxes(d2).value, ReadBoxes(d).value;
    assert m[1..] == ns && m[0].kind == Ascii("mvex");
    assert TrakIds(m) == Some(ids);
    assert k[1..] == m && k[0] == Node(Ascii("trak"), Concat(t.Payloads()));
  }

  lemma MvhdHead(rest: seq<byte>)
    requires ReadBoxes(rest).Some?
    ensures var d := Mvhd() + rest;
            ReadBoxes(d).Some? && TrakIds(ReadBoxes(d).value) == TrakIds(ReadBoxes(rest).value)
  {
    Kinds();
    hide BE32, BE16, ReadBoxes, Ascii, FullBoxBytes, UnityMatrix, VersionFlags;
    var p := BE32(0) + BE32(0) + BE32(MPEG_TIMESCALE) + BE32(0) + BE32(0x1_0000) + BE16(0x100) + Zeros(10)
             + UnityMatrix() + Zeros(24) + BE32(0xFFFF_FFFF);
    MatrixLength();
    FullBoxBack(Mvhd() + rest, Ascii("mvhd"), 0, 0, p, rest);
    var ns, k := ReadBoxes(rest).value, ReadBoxes(Mvhd() + rest).value;
    assert k[1..] == ns && k[0].kind == Ascii("mvhd");
  }

  lemma MatrixLength()
    ensures |UnityMatrix()| == 36
  {
  }

  /** A `moov` box standing last reads as its children, header first. */
  lemma MoovRead(children: seq<seq<byte>>)
    requires |BoxBytes(Ascii("moov"), [Mvhd()] + children)| < 0x1_0000_0000
    ensures ReadBoxes(BoxBytes(Ascii("moov"), [Mvhd()] + children))
         == Some([Node(Ascii("moov"), Mvhd() + Concat(children))])
  {
    MoovSizes(children);
    hide ReadBoxes, Ascii, BoxBytes, Mvhd;
    var parts := [Mvhd()] + children;
    var moov := BoxBytes(Ascii("moov"), parts);
    assert moov + [] == moov;
    BoxBack(moov, Ascii("moov"), parts, []);
    EmptyBoxes();
    assert parts[1..] == children;
    var n := Node(Ascii("moov"), Concat(parts));
    assert [n] + [] == [n];
  }

  lemma FtypRead(moov: seq<byte>)
    ensures ReadBoxes(Ftyp() + moov) == match ReadBoxes(moov) case None => None
                                        case Some(ns) => Some([Node(Ascii("ftyp"), Ftyp()[8..])] + ns)
  {
    FtypParts();
    hide BE32, ReadBoxes, Ascii;
    var brands := Ascii("isom") + BE32(0x200) + Ascii("isom") + Ascii("iso6") + Ascii("mp41");
    BoxBack(Ftyp() + moov, Ascii("ftyp"), [brands], moov);
    Singleton(brands);
    assert Ftyp()[8..] == brands;
  }

  lemma TrackIdsOf(d: seq<byte>, head: Node, body: seq<byte>)
    requires ReadBoxes(d) == Some([head] + [Node(Ascii("moov"), body)]) && ReadBoxes(body).Some?
    ensures ReadTrackIds(d) == TrakIds(ReadBoxes(body).value)
  {
    hide ReadBoxes, Ascii, TrakIds;
  }

  /** The ids a reader finds in an init segment are those of its tracks, in order. */
  lemma InitBack(ts: seq<Trak>)
    requires forall t :: t in ts ==> Readable(t)
    requires |InitBytes(TrakBytes(ts))| < 0x1_0000_0000
    ensures ReadTrackIds(InitBytes(TrakBytes(ts))) == Some(Ids(ts))
  {
    TraksBack(ts, 1);
    var children := TraksAndMvex(TrakBytes(ts), 1);
    MvhdHead(Concat(children));
    hide ReadBoxes, Ascii, BoxBytes, Mvhd, TraksAndMvex, Readable, TrakIds, Ftyp, TrakBytes, Ids, Concat, ReadTrackIds;
    MoovRead(children);
    var moov := BoxBytes(Ascii("moov"), [Mvhd()] + children);
    FtypRead(moov);
    TrackIdsOf(Ftyp() + moov, Node(Ascii("ftyp"), Ftyp()[8..]), Mvhd() + Concat(children));
  }

  lemma FtypParts()
    ensures 8 + TotalLength([Ascii("isom") + BE32(0x200) + Ascii("isom") + Ascii("iso6") + Ascii("mp41")]) < 100
  {
    Singleton(Ascii("isom") + BE32(0x200) + Ascii("isom") + Ascii("iso6") + Ascii("mp41"));
  }

  lemma MoovSizes(children: seq<seq<byte>>)
    ensures |BoxBytes(Ascii("moov"), [Mvhd()] + children)| == 8 + TotalLength([Mvhd()] + children)
  {
    BoxSize(Ascii("moov"), [Mvhd()] + children);
  }
}
