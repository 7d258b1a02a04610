/**
 Reading an initialization segment as a player does: down every track to its time scale, its sample entry and the
 codec configuration inside.
 */
module InitReading {
  import opened Bytes
  import opened Wrappers
  import opened Mp4
  import opened InitSegment
  import opened Transmuxer

  // ------------------------------------------------------------------ the reader

  /** The body of the first box of this kind. */
  function Child(nodes: seq<Node>, kind: seq<byte>): Option<seq<byte>>
  {
    if nodes == [] then None else if nodes[0].kind == kind then Some(nodes[0].body) else Child(nodes[1..], kind)
  }

  /** One level down: the first box of this kind in a body. */
  function Within(d: Option<seq<byte>>, kind: seq<byte>): Option<seq<byte>>
  {
    match d
    case None => None
    case Some(body) => match ReadBoxes(body) case None => None case Some(nodes) => Child(nodes, kind)
  }

  /** What a sample entry tells a decoder. */
  datatype Entry =
    | AudioEntry(channels: nat, sampleRate: nat, audioSpecificConfig: seq<byte>)
    | VideoEntry(width: int, height: int, profile: seq<byte>, sps: seq<byte>, pps: seq<byte>)

  datatype Declared = Declared(id: nat, timescale: nat, entry: Entry)

  /** The integer part of the 16.16 sample rate stands in front of its fraction. */
  function ReadAudioEntry(body: seq<byte>): Option<Entry>
  {
    if |body| < 28 then None
    else
      match Within(Some(body[28..]), Ascii("esds"))
      case None => None
      case Some(esds) =>
        if |esds| < 4 then None
        else
          match ReadAsc(esds[4..])
          case None => None
          case Some(asc) => Some(AudioEntry(ReadBE16(body, 16), ReadBE16(body, 24), asc))
  }

  function ReadVideoEntry(body: seq<byte>): Option<Entry>
  {
    if |body| < 78 then None
    else
      match Within(Some(body[78..]), Ascii("avcC"))
      case None => None
      case Some(record) =>
        match ReadAvcRecord(record)
        case None => None
        case Some(sets) => Some(VideoEntry(ReadBE16(body, 24), ReadBE16(body, 26), sets.profile, sets.sps, sets.pps))
  }

  /** The one entry of a sample description. */
  function ReadStsd(body: seq<byte>): Option<Entry>
  {
    if |body| < 8 then None
    else
      match ReadBoxes(body[8..])
      case None => None
      case Some(nodes) =>
        if |nodes| != 1 then None
        else if nodes[0].kind == Ascii("mp4a") then ReadAudioEntry(nodes[0].body)
        else if nodes[0].kind == Ascii("avc1") then ReadVideoEntry(nodes[0].body)
        else None
  }

  /** The size in the track header is that of the sample entry; audio has none. */
  predicate SameSize(tkhd: seq<byte>, entry: Entry)
    requires |tkhd| >= 84
  {
    match entry
    case AudioEntry(_, _, _) => ReadBE16(tkhd, 76) == 0 && ReadBE16(tkhd, 80) == 0
    case VideoEntry(w, h, _, _, _) => ReadBE16(tkhd, 76) == w && ReadBE16(tkhd, 80) == h
  }

  /** A track: its header, and its media box down to the sample description. */
  function ReadTrak(body: seq<byte>): Option<Declared>
  {
    var mdia := Within(Some(body), Ascii("mdia"));
    match (Within(Some(body), Ascii("tkhd")), Within(mdia, Ascii("mdhd")),
           Within(Within(Within(mdia, Ascii("minf")), Ascii("stbl")), Ascii("stsd")), Within(mdia, Ascii("hdlr")))
    case (Some(tkhd), Some(mdhd), Some(stsd), Some(hdlr)) =>
      if |tkhd| < 84 || |mdhd| < 16 || |hdlr| < 12 then None
      else
        (match ReadStsd(stsd)
         case None => None
         case Some(entry) =>
           if hdlr[8..12] != Ascii(if entry.AudioEntry? then "soun" else "vide") || !SameSize(tkhd, entry) then None
           else Some(Declared(ReadBE32(tkhd, 12), ReadBE32(mdhd, 12), entry)))
    case _ => None
  }

  function ReadTraks(nodes: seq<Node>): Option<seq<Declared>>
  {
    if nodes == [] then Some([])
    else if nodes[0].kind != Ascii("trak") then ReadTraks(nodes[1..])
    else
      match (ReadTrak(nodes[0].body), ReadTraks(nodes[1..]))
      case (Some(t), Some(rest)) => Some([t] + rest)
      case _ => None
  }

  /** The tracks of an init segment. */
  function ReadInit(d: seq<byte>): Option<seq<Declared>>
  {
    match Within(Some(d), Ascii("moov"))
    case None => None
    case Some(moov) => match ReadBoxes(moov) case None => None case Some(nodes) => ReadTraks(nodes)
  }

  // ------------------------------------------------------------------ boxes in a row

  function BoxOf(n: Node): seq<byte> { BoxBytes(n.kind, [n.body]) }

  function Boxes(ns: seq<Node>): seq<byte>
  {
    if ns == [] then [] else BoxOf(ns[0]) + Boxes(ns[1..])
  }

  predicate NodesFit(ns: seq<Node>)
  {
    (forall n :: n in ns ==> |n.kind| == 4) && |Boxes(ns)| < 0x1_0000_0000
  }

  lemma BoxOfSize(n: Node)
    requires |n.kind| == 4
    ensures |BoxOf(n)| == 8 + |n.body|
  {
    BoxSize(n.kind, [n.body]);
    Singleton(n.body);
  }

  /** Boxes written one behind the other are read back. */
  lemma {:induction false} BoxesBack(ns: seq<Node>)
    requires NodesFit(ns)
    ensures ReadBoxes(Boxes(ns)) == Some(ns)
  {
    if ns == [] {
      EmptyBoxes();
    } else {
      hide ReadBoxes, BoxBytes;
      BoxOfSize(ns[0]);
      BoxesBack(ns[1..]);
      Singleton(ns[0].body);
      BoxBack(Boxes(ns), ns[0].kind, [ns[0].body], Boxes(ns[1..]));
      assert [ns[0]] + ns[1..] == ns;
    }
  }

  lemma {:induction false} BodyFits(ns: seq<Node>, n: Node)
    requires n in ns && forall m :: m in ns ==> |m.kind| == 4
    ensures |Boxes(ns)| >= 8 + |n.body|
  {
    hide BoxOf;
    BoxOfSize(ns[0]);
    if n != ns[0] { BodyFits(ns[1..], n); }
  }

  function Written(ns: seq<Node>): seq<seq<byte>>
  {
    if ns == [] then [] else [BoxOf(ns[0])] + Written(ns[1..])
  }

  lemma {:induction false} WrittenConcat(ns: seq<Node>)
    ensures Concat(Written(ns)) == Boxes(ns)
  {
    if ns != [] { WrittenConcat(ns[1..]); }
  }

  /** A box of boxes. */
  lemma Parent(kind: seq<byte>, parts: seq<seq<byte>>, ns: seq<Node>)
    requires parts == Written(ns)
    ensures BoxBytes(kind, parts) == BoxOf(Node(kind, Boxes(ns)))
  {
    hide BE32;
    WrittenConcat(ns);
    TotalLengthIsConcatLength(parts);
    Singleton(Boxes(ns));
  }

  lemma ParentOne(kind: seq<byte>, p: seq<byte>, n: Node)
    requires p == BoxOf(n)
    ensures BoxBytes(kind, [p]) == BoxOf(Node(kind, Boxes([n])))
  {
    hide BoxOf;
    assert Written([n]) == [p] by { assert Written([]) == []; }
    Parent(kind, [p], [n]);
  }

  /** A full box. */
  function Full(kind: seq<byte>, flags: nat, payload: seq<byte>): Node { Node(kind, VersionFlags(0, flags) + payload) }

  lemma FullIs(kind: seq<byte>, flags: nat, payload: seq<byte>)
    ensures FullBoxBytes(kind, 0, flags, payload) == BoxOf(Full(kind, flags, payload))
  {
    FullBoxIsBox(kind, 0, flags, payload);
  }

  // ------------------------------------------------------------------ the written boxes as nodes

  function StsdNode(entry: Node): Node { Full(Ascii("stsd"), 0, BE32(1) + BoxOf(entry)) }

  function StblNode(entry: Node): Node
  {
    Node(Ascii("stbl"), Boxes([StsdNode(entry), Full(Ascii("stts"), 0, BE32(0)), Full(Ascii("stsc"), 0, BE32(0)),
                               Full(Ascii("stsz"), 0, BE32(0) + BE32(0)), Full(Ascii("stco"), 0, BE32(0))]))
  }

  lemma StblIs(entry: Node)
    ensures Stbl(BoxOf(entry)) == BoxOf(StblNode(entry))
  {
    hide BE32, BoxOf, BoxBytes, FullBoxBytes, Ascii, Full, Boxes;
    var a, b, c := StsdNode(entry), Full(Ascii("stts"), 0, BE32(0)), Full(Ascii("stsc"), 0, BE32(0));
    var d, e := Full(Ascii("stsz"), 0, BE32(0) + BE32(0)), Full(Ascii("stco"), 0, BE32(0));
    FullIs(Ascii("stsd"), 0, BE32(1) + BoxOf(entry));
    FullIs(Ascii("stts"), 0, BE32(0));
    FullIs(Ascii("stsc"), 0, BE32(0));
    FullIs(Ascii("stsz"), 0, BE32(0) + BE32(0));
    FullIs(Ascii("stco"), 0, BE32(0));
    WrittenFive(a, b, c, d, e);
    Parent(Ascii("stbl"), [BoxOf(a), BoxOf(b), BoxOf(c), BoxOf(d), BoxOf(e)], [a, b, c, d, e]);
  }

  lemma WrittenTwo(a: Node, b: Node)
    ensures Written([a, b]) == [BoxOf(a), BoxOf(b)]
  {
    hide BoxOf;
    assert [a, b][1..] == [b] && [b][1..] == [];
    assert Written([b]) == [BoxOf(b)] + Written([]);
  }

  lemma WrittenThree(a: Node, b: Node, c: Node)
    ensures Written([a, b, c]) == [BoxOf(a), BoxOf(b), BoxOf(c)]
  {
    hide BoxOf;
    WrittenTwo(b, c);
    assert [a, b, c][1..] == [b, c];
  }

  lemma WrittenFive(a: Node, b: Node, c: Node, d: Node, e: Node)
    ensures Written([a, b, c, d, e]) == [BoxOf(a), BoxOf(b), BoxOf(c), BoxOf(d), BoxOf(e)]
  {
    hide BoxOf;
    WrittenThree(c, d, e);
    assert [a, b, c, d, e][1..] == [b, c, d, e] && [b, c, d, e][1..] == [c, d, e];
    assert Written([b, c, d, e]) == [BoxOf(b)] + Written([c, d, e]);
  }

  function DinfNode(): Node { Node(Ascii("dinf"), Dinf()[8..]) }

  lemma DinfIs()
    ensures Dinf() == BoxOf(DinfNode())
  {
    hide BE32, BoxBytes, FullBoxBytes, Ascii;
    var dref := FullBoxBytes(Ascii("dref"), 0, 0, BE32(1) + FullBoxBytes(Ascii("url "), 0, 1, []));
    BoxTail(Ascii("dinf"), dref);
  }

  lemma BoxTail(kind: seq<byte>, p: seq<byte>)
    requires |kind| == 4
    ensures |BoxBytes(kind, [p])| >= 8 && BoxBytes(kind, [p])[8..] == p
  {
    hide BE32;
    Singleton(p);
  }

  function MdhdNode(timescale: nat): Node
  {
    Full(Ascii("mdhd"), 0, BE32(0) + BE32(0) + BE32(timescale) + BE32(0) + BE16(0x55C4) + BE16(0))
  }

  function HdlrNode(handlerType: string, name: string): Node
  {
    Full(Ascii("hdlr"), 0, BE32(0) + Ascii(handlerType) + Zeros(12) + Ascii(name) + [0])
  }

  function MinfNode(head: Node, entry: Node): Node
  {
    Node(Ascii("minf"), Boxes([head, DinfNode(), StblNode(entry)]))
  }

  function MdiaNode(timescale: nat, hdlr: Node, head: Node, entry: Node): Node
  {
    Node(Ascii("mdia"), Boxes([MdhdNode(timescale), hdlr, MinfNode(head, entry)]))
  }

  lemma MdiaIs(timescale: nat, hdlr: Node, head: Node, entry: Node)
    ensures BoxBytes(Ascii("mdia"), [Mdhd(timescale), BoxOf(hdlr),
                                     BoxBytes(Ascii("minf"), [BoxOf(head), Dinf(), Stbl(BoxOf(entry))])])
         == BoxOf(MdiaNode(timescale, hdlr, head, entry))
  {
    hide BE32, BE16, BoxOf, BoxBytes, FullBoxBytes, Ascii, Full, Boxes, Dinf, Stbl, DinfNode, StblNode;
    DinfIs();
    StblIs(entry);
    FullIs(Ascii("mdhd"), 0, BE32(0) + BE32(0) + BE32(timescale) + BE32(0) + BE16(0x55C4) + BE16(0));
    WrittenThree(head, DinfNode(), StblNode(entry));
    Parent(Ascii("minf"), [BoxOf(head), Dinf(), Stbl(BoxOf(entry))], [head, DinfNode(), StblNode(entry)]);
    WrittenThree(MdhdNode(timescale), hdlr, MinfNode(head, entry));
    Parent(Ascii("mdia"), [Mdhd(timescale), BoxOf(hdlr), BoxOf(MinfNode(head, entry))],
           [MdhdNode(timescale), hdlr, MinfNode(head, entry)]);
  }

  function AudioFields(c: AudioTrackConfig): (f: seq<byte>)
    ensures |f| == 28
  {
    Zeros(6) + BE16(1) + Zeros(8) + BE16(c.channelConfiguration) + BE16(16) + BE16(0) + BE16(0) + BE32(c.sampleRate * 0x1_0000)
  }

  function EsdsNode(asc: seq<byte>): Node { Full(Ascii("esds"), 0, EsDescriptor(asc)) }

  function AudioNode(c: AudioTrackConfig): Node
  {
    Node(Ascii("mp4a"), AudioFields(c) + Boxes([EsdsNode(c.audioSpecificConfig)]))
  }

  function VideoFields(c: VideoTrackConfig): (f: seq<byte>)
    ensures |f| == 78
  {
    Zeros(6) + BE16(1) + Zeros(16) + BE16(c.width) + BE16(c.height) + BE32(0x0048_0000)
    + BE32(0x0048_0000) + BE32(0) + BE16(1) + Zeros(32) + BE16(0x18) + BE16(-1)
  }

  function VideoNode(c: VideoTrackConfig): Node
  {
    Node(Ascii("avc1"), VideoFields(c) + Boxes([Node(Ascii("avcC"), AvcRecord(c))]))
  }

  /** A box with fields in front of the one box inside. */
  lemma EntryIs(kind: seq<byte>, fields: seq<byte>, n: Node)
    ensures BoxBytes(kind, [fields, BoxOf(n)]) == BoxOf(Node(kind, fields + Boxes([n])))
  {
    hide BE32, BoxOf;
    TwoParts(fields, BoxOf(n));
    Singleton(fields + Boxes([n]));
    assert Boxes([n]) == BoxOf(n) + Boxes([]);
    assert Boxes([n]) == BoxOf(n);
    BoxOfOne(kind, fields + BoxOf(n));
  }

  lemma BoxOfOne(kind: seq<byte>, p: seq<byte>)
    ensures BoxOf(Node(kind, p)) == BE32(8 + |p|) + kind + p
  {
    hide BE32;
    Singleton(p);
  }

  lemma Mp4aIs(c: AudioTrackConfig)
    ensures Mp4a(c) == BoxOf(AudioNode(c))
  {
    hide BE32, BE16, BoxOf, BoxBytes, FullBoxBytes, Ascii, Full, Boxes, EsDescriptor, Zeros;
    FullIs(Ascii("esds"), 0, EsDescriptor(c.audioSpecificConfig));
    EntryIs(Ascii("mp4a"), AudioFields(c), EsdsNode(c.audioSpecificConfig));
  }

  lemma Avc1Is(c: VideoTrackConfig)
    ensures Avc1(c) == BoxOf(VideoNode(c))
  {
    hide BE32, BE16, BoxOf, BoxBytes, Ascii, Boxes, AvcRecord, Zeros;
    AvcCIs(c);
    EntryIs(Ascii("avc1"), VideoFields(c), Node(Ascii("avcC"), AvcRecord(c)));
  }

  lemma AvcCIs(v: VideoTrackConfig)
    ensures AvcC(v) == BoxOf(Node(Ascii("avcC"), AvcRecord(v)))
  {
  }

  // ------------------------------------------------------------------ reading them back

  lemma Other(nodes: seq<Node>, kind: seq<byte>)
    requires nodes != [] && nodes[0].kind != kind
    ensures Child(nodes, kind) == Child(nodes[1..], kind)
  {
  }

  lemma KindNames()
    ensures Ascii("mdhd") != Ascii("minf") && Ascii("hdlr") != Ascii("minf")
    ensures Ascii("smhd") != Ascii("stbl") && Ascii("vmhd") != Ascii("stbl") && Ascii("dinf") != Ascii("stbl")
    ensures Ascii("tkhd") != Ascii("mdia") && Ascii("mp4a") != Ascii("avc1") && Ascii("ftyp") != Ascii("moov")
    ensures Ascii("mvhd") != Ascii("trak") && Ascii("mvex") != Ascii("trak")
  {
    assert Ascii("mdhd")[1] != Ascii("minf")[1] && Ascii("hdlr")[0] != Ascii("minf")[0];
    assert Ascii("smhd")[1] != Ascii("stbl")[1] && Ascii("vmhd")[0] != Ascii("stbl")[0] && Ascii("dinf")[0] != Ascii("stbl")[0];
    assert Ascii("tkhd")[0] != Ascii("mdia")[0] && Ascii("mp4a")[0] != Ascii("avc1")[0] && Ascii("ftyp")[0] != Ascii("moov")[0];
    assert Ascii("mvhd")[0] != Ascii("trak")[0] && Ascii("mvex")[0] != Ascii("trak")[0];
  }

  lemma BE16At(d: seq<byte>, i: nat, v: int)
    requires i + 2 <= |d| && d[i..i + 2] == BE16(v)
    ensures ReadBE16(d, i) == v % 0x1_0000
  {
    hide BE16, ReadBE16;
    LowHalf(v);
    BE16Back(d, i, v % 0x1_0000);
  }

  lemma LowHalf(v: int)
    ensures BE16(v) == BE16(v % 0x1_0000)
  {
    var w := v % 0x1_0000;
    assert w % 0x1_0000 == w;
  }

  lemma LowWord(v: int)
    ensures U32(v * 0x1_0000) == v % 0x1_0000 * 0x1_0000
  {
    var q, w := v / 0x1_0000, v % 0x1_0000;
    assert v * 0x1_0000 == q * 0x1_0000_0000 + w * 0x1_0000;
    Remainder(q, w * 0x1_0000);
  }

  lemma Remainder(q: int, r: nat)
    requires r < 0x1_0000_0000
    ensures (q * 0x1_0000_0000 + r) % 0x1_0000_0000 == r
  {
  }

  lemma FrontBytes(w: nat)
    requires w < 0x1_0000
    ensures w * 0x1_0000 / 0x100_0000 == w / 256 && w * 0x1_0000 / 0x1_0000 % 256 == w % 256
  {
    var a, b := w / 256, w % 256;
    assert w * 0x1_0000 == a * 0x100_0000 + b * 0x1_0000;
  }

  /** The integer part of a 16.16 number keeps 16 bits. */
  lemma FixedPoint(d: seq<byte>, i: nat, v: int)
    requires i + 4 <= |d| && d[i..i + 4] == BE32(v * 0x1_0000)
    ensures ReadBE16(d, i) == v % 0x1_0000
  {
    hide U32;
    var w := v % 0x1_0000;
    LowWord(v);
    FrontBytes(w);
    var b := d[i..i + 4];
    assert b[0] == d[i] && b[1] == d[i + 1];
    var x: int, y: int := d[i], d[i + 1];
    assert x == w / 256 && y == w % 256;
  }

  lemma AudioBack(c: AudioTrackConfig)
    requires |c.audioSpecificConfig| < 200
    ensures ReadAudioEntry(AudioNode(c).body)
         == Some(AudioEntry(c.channelConfiguration % 0x1_0000, c.sampleRate % 0x1_0000, c.audioSpecificConfig))
  {
    hide BE16, BE32, ReadBE16, ReadAsc, EsDescriptor, ReadBoxes, BoxOf, Boxes, VersionFlags, Ascii, AudioFields;
    var f, ns := AudioFields(c), [EsdsNode(c.audioSpecificConfig)];
    var body := f + Boxes(ns);
    EsdsFits(c.audioSpecificConfig);
    BoxesBack(ns);
    AscBack(c.audioSpecificConfig);
    AudioFieldsBack(c, body);
    assert body[28..] == Boxes(ns);
    var esds := VersionFlags(0, 0) + EsDescriptor(c.audioSpecificConfig);
    assert esds[4..] == EsDescriptor(c.audioSpecificConfig);
  }

  lemma EsdsFits(asc: seq<byte>)
    requires |asc| < 200
    ensures NodesFit([EsdsNode(asc)]) && |Boxes([EsdsNode(asc)])| < 400
  {
    hide BE16, BE32, BoxOf, VersionFlags;
    BoxOfSize(EsdsNode(asc));
    assert |EsDescriptor(asc)| < 300;
    OneBox(EsdsNode(asc));
  }

  lemma AudioFieldsBack(c: AudioTrackConfig, body: seq<byte>)
    requires |body| >= 28 && body[..28] == AudioFields(c)
    ensures ReadBE16(body, 16) == c.channelConfiguration % 0x1_0000 && ReadBE16(body, 24) == c.sampleRate % 0x1_0000
  {
    hide BE16, BE32, ReadBE16;
    assert body[16..18] == body[..28][16..18] == BE16(c.channelConfiguration);
    assert body[24..28] == body[..28][24..28] == BE32(c.sampleRate * 0x1_0000);
    BE16At(body, 16, c.channelConfiguration);
    FixedPoint(body, 24, c.sampleRate);
  }

  predicate SetsFit(c: VideoTrackConfig)
  {
    |c.sps| < 0x1_0000 && |c.pps| < 0x1_0000
  }

  lemma VideoBack(c: VideoTrackConfig)
    requires SetsFit(c)
    ensures ReadVideoEntry(VideoNode(c).body)
         == Some(VideoEntry(c.width % 0x1_0000, c.height % 0x1_0000, ProfileBytes(c), c.sps, c.pps))
  {
    hide BE16, BE32, ReadBE16, ReadAvcRecord, AvcRecord, ReadBoxes, BoxOf, Boxes, Ascii, VideoFields;
    var f, ns := VideoFields(c), [Node(Ascii("avcC"), AvcRecord(c))];
    var body := f + Boxes(ns);
    RecordFits(c);
    BoxesBack(ns);
    AvcRecordBack(c);
    VideoFieldsBack(c, body);
    assert body[78..] == Boxes(ns);
  }

  lemma RecordFits(c: VideoTrackConfig)
    requires SetsFit(c)
    ensures NodesFit([Node(Ascii("avcC"), AvcRecord(c))]) && |Boxes([Node(Ascii("avcC"), AvcRecord(c))])| < 0x10_0000
  {
    hide BE16, BoxOf, AvcHeader;
    var n := Node(Ascii("avcC"), AvcRecord(c));
    BoxOfSize(n);
    HeaderSize(c);
    OneBox(n);
  }

  lemma HeaderSize(c: VideoTrackConfig)
    ensures |AvcHeader(c)| == 6
  {
  }

  lemma VideoFieldsBack(c: VideoTrackConfig, body: seq<byte>)
    requires |body| >= 78 && body[..78] == VideoFields(c)
    ensures ReadBE16(body, 24) == c.width % 0x1_0000 && ReadBE16(body, 26) == c.height % 0x1_0000
  {
    hide BE16, BE32, ReadBE16;
    assert body[24..26] == body[..78][24..26] == BE16(c.width);
    assert body[26..28] == body[..78][26..28] == BE16(c.height);
    BE16At(body, 24, c.width);
    BE16At(body, 26, c.height);
  }

  lemma OneNodeBack(n: Node)
    requires NodesFit([n])
    ensures ReadBoxes(BoxOf(n)) == Some([n])
  {
    hide ReadBoxes, BoxOf, NodesFit;
    OneBox(n);
    BoxesBack([n]);
  }

  /** Reading the AAC sample entry: channel count, the low 16 bits of the sample rate, and the configuration. */
  lemma Mp4aBack(c: AudioTrackConfig)
    requires |c.audioSpecificConfig| < 200
    ensures var ns := ReadBoxes(Mp4a(c));
            && ns.Some? && |ns.value| == 1 && ns.value[0].kind == Ascii("mp4a")
            && ReadAudioEntry(ns.value[0].body)
               == Some(AudioEntry(c.channelConfiguration % 0x1_0000, c.sampleRate % 0x1_0000, c.audioSpecificConfig))
  {
    hide ReadBoxes, ReadAudioEntry, BoxOf, Boxes, Ascii, AudioFields, EsdsNode;
    AudioBack(c);
    Mp4aIs(c);
    EsdsFits(c.audioSpecificConfig);
    EntryFits(AudioNode(c));
    OneNodeBack(AudioNode(c));
  }

  lemma EntryFits(n: Node)
    requires |n.kind| == 4 && |n.body| < 0x1000_0000
    ensures NodesFit([n])
  {
    hide BoxOf;
    BoxOfSize(n);
    OneBox(n);
  }

  /** Reading the H.264 sample entry: the low 16 bits of width and height, and both parameter sets. */
  lemma Avc1Back(c: VideoTrackConfig)
    requires SetsFit(c)
    ensures var ns := ReadBoxes(Avc1(c));
            && ns.Some? && |ns.value| == 1 && ns.value[0].kind == Ascii("avc1")
            && ReadVideoEntry(ns.value[0].body) == Some(VideoEntry(c.width % 0x1_0000, c.height % 0x1_0000, ProfileBytes(c), c.sps, c.pps))
  {
    hide ReadBoxes, ReadVideoEntry, BoxOf, Boxes, Ascii, VideoFields, AvcRecord, SetsFit;
    VideoBack(c);
    Avc1Is(c);
    RecordFits(c);
    EntryFits(VideoNode(c));
    OneNodeBack(VideoNode(c));
  }

  lemma StsdBack(entry: Node)
    requires NodesFit([entry])
    ensures |StsdNode(entry).body| >= 8 && ReadBoxes(StsdNode(entry).body[8..]) == Some([entry])
  {
    hide BE32, BoxOf, VersionFlags, ReadBoxes, Ascii;
    assert StsdNode(entry).body[8..] == BoxOf(entry);
    OneNodeBack(entry);
  }

  lemma AudioStsd(c: AudioTrackConfig)
    requires |c.audioSpecificConfig| < 200 && NodesFit([AudioNode(c)])
    ensures ReadStsd(StsdNode(AudioNode(c)).body)
         == Some(AudioEntry(c.channelConfiguration % 0x1_0000, c.sampleRate % 0x1_0000, c.audioSpecificConfig))
  {
    hide ReadBoxes, ReadAudioEntry, ReadVideoEntry, BoxOf, Boxes, Ascii, StsdNode, AudioFields;
    AudioBack(c);
    StsdBack(AudioNode(c));
  }

  lemma VideoStsd(c: VideoTrackConfig)
    requires SetsFit(c) && NodesFit([VideoNode(c)])
    ensures ReadStsd(StsdNode(VideoNode(c)).body)
         == Some(VideoEntry(c.width % 0x1_0000, c.height % 0x1_0000, ProfileBytes(c), c.sps, c.pps))
  {
    hide ReadBoxes, ReadAudioEntry, ReadVideoEntry, BoxOf, Boxes, Ascii, StsdNode, VideoFields, SetsFit;
    VideoBack(c);
    KindNames();
    StsdBack(VideoNode(c));
  }

  lemma WithinBoxes(ns: seq<Node>, kind: seq<byte>)
    requires NodesFit(ns)
    ensures Within(Some(Boxes(ns)), kind) == Child(ns, kind)
  {
    hide ReadBoxes, Boxes;
    BoxesBack(ns);
  }

  lemma SecondChild(ns: seq<Node>, kind: seq<byte>)
    requires |ns| >= 2 && ns[0].kind != kind && ns[1].kind == kind
    ensures Child(ns, kind) == Some(ns[1].body)
  {
    Other(ns, kind);
  }

  lemma ThirdChild(ns: seq<Node>, kind: seq<byte>)
    requires |ns| >= 3 && ns[0].kind != kind && ns[1].kind != kind && ns[2].kind == kind
    ensures Child(ns, kind) == Some(ns[2].body)
  {
    Other(ns, kind);
    SecondChild(ns[1..], kind);
  }

  lemma StblBack(entry: Node)
    requires NodesFit([entry]) && |StblNode(entry).body| < 0x1_0000_0000
    ensures Within(Some(StblNode(entry).body), Ascii("stsd")) == Some(StsdNode(entry).body)
  {
    hide BE32, BoxOf, VersionFlags, Boxes, Ascii, Within;
    var ns := [StsdNode(entry), Full(Ascii("stts"), 0, BE32(0)), Full(Ascii("stsc"), 0, BE32(0)),
               Full(Ascii("stsz"), 0, BE32(0) + BE32(0)), Full(Ascii("stco"), 0, BE32(0))];
    WithinBoxes(ns, Ascii("stsd"));
  }

  lemma MinfBack(head: Node, entry: Node)
    requires NodesFit([entry]) && |MinfNode(head, entry).body| < 0x1_0000_0000
    requires head.kind == Ascii("smhd") || head.kind == Ascii("vmhd")
    ensures |StblNode(entry).body| < 0x1_0000_0000
    ensures Within(Some(MinfNode(head, entry).body), Ascii("stbl")) == Some(StblNode(entry).body)
  {
    hide BoxOf, Boxes, Ascii, Within, DinfNode, StblNode;
    KindNames();
    var ns := [head, DinfNode(), StblNode(entry)];
    assert DinfNode().kind == Ascii("dinf") && StblNode(entry).kind == Ascii("stbl") by { MediaKinds(entry); }
    WithinBoxes(ns, Ascii("stbl"));
    ThirdChild(ns, Ascii("stbl"));
    BodyFits(ns, StblNode(entry));
  }

  lemma MediaKinds(entry: Node)
    ensures DinfNode().kind == Ascii("dinf") && StblNode(entry).kind == Ascii("stbl")
  {
  }

  lemma MdhdBack(timescale: nat)
    ensures |MdhdNode(timescale).body| >= 16 && ReadBE32(MdhdNode(timescale).body, 12) == U32(timescale)
  {
    hide BE32, BE16, ReadBE32, VersionFlags, Ascii;
    var body := MdhdNode(timescale).body;
    assert body[12..16] == BE32(timescale);
    ReadBE32At(body, 12, timescale);
  }

  lemma HandlerName()
    ensures Ascii("mdhd") != Ascii("hdlr")
  {
    assert Ascii("mdhd")[0] != Ascii("hdlr")[0];
  }

  lemma HdlrBack(handlerType: string, name: string)
    requires handlerType == "soun" || handlerType == "vide"
    ensures HdlrNode(handlerType, name).kind == Ascii("hdlr")
    ensures |HdlrNode(handlerType, name).body| >= 12 && HdlrNode(handlerType, name).body[8..12] == Ascii(handlerType)
  {
    hide BE32, VersionFlags;
    assert |Ascii("soun")| == 4 && |Ascii("vide")| == 4;
  }

  /** A media box leads to its time scale and to its sample description. */
  lemma MdiaBack(timescale: nat, hdlr: Node, head: Node, entry: Node)
    requires |MdiaNode(timescale, hdlr, head, entry).body| < 0x1_0000_0000
    requires hdlr.kind == Ascii("hdlr") && (head.kind == Ascii("smhd") || head.kind == Ascii("vmhd")) && |entry.kind| == 4
    ensures NodesFit([entry])
    ensures var mdia := Some(MdiaNode(timescale, hdlr, head, entry).body);
            && Within(mdia, Ascii("mdhd")) == Some(MdhdNode(timescale).body) && Within(mdia, Ascii("hdlr")) == Some(hdlr.body)
            && Within(Within(Within(mdia, Ascii("minf")), Ascii("stbl")), Ascii("stsd")) == Some(StsdNode(entry).body)
  {
    hide BoxOf, Boxes, Ascii, Within, MinfNode, MdhdNode, StblNode, StsdNode, NodesFit;
    KindNames();
    HandlerName();
    var ns := [MdhdNode(timescale), hdlr, MinfNode(head, entry)];
    assert ns[0].kind == Ascii("mdhd") && ns[2].kind == Ascii("minf") by { MoreKinds(timescale, head, entry); }
    assert NodesFit(ns) by { Fit(ns); }
    WithinBoxes(ns, Ascii("mdhd"));
    WithinBoxes(ns, Ascii("minf"));
    WithinBoxes(ns, Ascii("hdlr"));
    SecondChild(ns, Ascii("hdlr"));
    ThirdChild(ns, Ascii("minf"));
    BodyFits(ns, MinfNode(head, entry));
    MinfSmall(head, entry);
    MinfBack(head, entry);
    StblBack(entry);
  }

  lemma Fit(ns: seq<Node>)
    requires |Boxes(ns)| < 0x1_0000_0000 && forall n :: n in ns ==> |n.kind| == 4
    ensures NodesFit(ns)
  {
  }

  lemma MoreKinds(timescale: nat, head: Node, entry: Node)
    ensures MdhdNode(timescale).kind == Ascii("mdhd") && MinfNode(head, entry).kind == Ascii("minf")
  {
  }

  /** An entry is smaller than the boxes around it. */
  lemma MinfSmall(head: Node, entry: Node)
    requires |head.kind| == 4 && |entry.kind| == 4 && |MinfNode(head, entry).body| < 0x1_0000_0000
    ensures NodesFit([entry])
  {
    hide BE32, BoxOf, Boxes, Ascii, DinfNode, VersionFlags;
    MediaKinds(entry);
    BodyFits([head, DinfNode(), StblNode(entry)], StblNode(entry));
    var ns := [StsdNode(entry), Full(Ascii("stts"), 0, BE32(0)), Full(Ascii("stsc"), 0, BE32(0)),
               Full(Ascii("stsz"), 0, BE32(0) + BE32(0)), Full(Ascii("stco"), 0, BE32(0))];
    BodyFits(ns, StsdNode(entry));
    OneBox(entry);
  }

  lemma OneBox(n: Node)
    ensures Boxes([n]) == BoxOf(n)
  {
    hide BoxOf;
    assert Boxes([n]) == BoxOf(n) + Boxes([]);
  }

  // ------------------------------------------------------------------ whole tracks

  datatype Track =
    | AudioTrack(id: nat, audio: AudioTrackConfig)
    | VideoTrack(id: nat, video: VideoTrackConfig)
  {
    /** What is written for the track. */
    function Trak(): Trak
    {
      match this
      case AudioTrack(id, c) => InitSegment.Trak(id, 0, 0, if c.channelConfiguration > 0 then 0x100 else 0, AudioMdia(c))
      case VideoTrack(id, c) => InitSegment.Trak(id, c.width, c.height, 0, VideoMdia(c))
    }

    /** What a player learns of it. */
    function Shown(): Declared
    {
      match this
      case AudioTrack(id, c) =>
        Declared(id, U32(c.sampleRate),
                 AudioEntry(c.channelConfiguration % 0x1_0000, c.sampleRate % 0x1_0000, c.audioSpecificConfig))
      case VideoTrack(id, c) =>
        Declared(id, MPEG_TIMESCALE, VideoEntry(c.width % 0x1_0000, c.height % 0x1_0000, ProfileBytes(c), c.sps, c.pps))
    }

    /** Parameter sets and configuration fit their length fields. */
    predicate LengthsFit()
    {
      && id < 0x1_0000_0000
      && match this
         case AudioTrack(_, c) => |c.audioSpecificConfig| < 200
         case VideoTrack(_, c) => SetsFit(c)
    }

    function Mdia(): Node
    {
      match this
      case AudioTrack(_, c) =>
        MdiaNode(c.sampleRate, HdlrNode("soun", "SoundHandler"), Full(Ascii("smhd"), 0, BE16(0) + BE16(0)), AudioNode(c))
      case VideoTrack(_, c) =>
        MdiaNode(MPEG_TIMESCALE, HdlrNode("vide", "VideoHandler"), Full(Ascii("vmhd"), 1, Zeros(8)), VideoNode(c))
    }
  }

  function TkhdPayload(t: Trak): seq<byte>
  {
    (BE32(0) + BE32(0) + BE32(t.id))
    + (Zeros(16) + BE16(0) + BE16(0) + BE16(t.volume) + BE16(0) + UnityMatrix()
       + BE32(t.width * 0x1_0000) + BE32(t.height * 0x1_0000))
  }

  function TkhdNode(t: Trak): Node { Full(Ascii("tkhd"), 3, TkhdPayload(t)) }

  function TrakNode(t: Track): Node { Node(Ascii("trak"), Boxes([TkhdNode(t.Trak()), t.Mdia()])) }

  lemma MediaIs(t: Track)
    ensures t.Trak().mdia == BoxOf(t.Mdia())
  {
    hide BE32, BE16, BoxOf, BoxBytes, FullBoxBytes, Ascii, Full, Boxes, Stbl, Dinf, Mdhd, MdiaNode, Mp4a, Avc1, AudioNode, VideoNode;
    match t
    case AudioTrack(_, c) =>
      FullIs(Ascii("hdlr"), 0, BE32(0) + Ascii("soun") + Zeros(12) + Ascii("SoundHandler") + [0]);
      FullIs(Ascii("smhd"), 0, BE16(0) + BE16(0));
      Mp4aIs(c);
      MdiaIs(c.sampleRate, HdlrNode("soun", "SoundHandler"), Full(Ascii("smhd"), 0, BE16(0) + BE16(0)), AudioNode(c));
    case VideoTrack(_, c) =>
      FullIs(Ascii("hdlr"), 0, BE32(0) + Ascii("vide") + Zeros(12) + Ascii("VideoHandler") + [0]);
      FullIs(Ascii("vmhd"), 1, Zeros(8));
      Avc1Is(c);
      MdiaIs(MPEG_TIMESCALE, HdlrNode("vide", "VideoHandler"), Full(Ascii("vmhd"), 1, Zeros(8)), VideoNode(c));
  }

  lemma TrakIs(t: Track)
    ensures t.Trak().Bytes() == BoxOf(TrakNode(t))
  {
    hide BE32, BE16, BoxOf, BoxBytes, FullBoxBytes, Ascii, Full, Boxes, UnityMatrix, TkhdPayload, Track.Mdia, Track.Trak;
    MediaIs(t);
    var k := t.Trak();
    FullIs(Ascii("tkhd"), 3, TkhdPayload(k));
    TkhdIs(k);
    WrittenTwo(TkhdNode(k), t.Mdia());
    Parent(Ascii("trak"), [BoxOf(TkhdNode(k)), BoxOf(t.Mdia())], [TkhdNode(k), t.Mdia()]);
  }

  lemma TkhdIs(t: Trak)
    ensures Tkhd(t.id, t.width, t.height, t.volume) == FullBoxBytes(Ascii("tkhd"), 0, 3, TkhdPayload(t))
  {
  }

  lemma TrackKinds(t: Track)
    ensures |TkhdNode(t.Trak()).kind| == 4 && TkhdNode(t.Trak()).kind == Ascii("tkhd")
    ensures |t.Mdia().kind| == 4 && t.Mdia().kind == Ascii("mdia") && |TrakNode(t).kind| == 4 && TrakNode(t).kind == Ascii("trak")
  {
    hide Boxes, BoxOf, Ascii, TkhdPayload;
  }

  lemma TkhdBack(t: Trak)
    requires t.id < 0x1_0000_0000
    ensures |TkhdNode(t).body| >= 84 && ReadBE32(TkhdNode(t).body, 12) == t.id
    ensures ReadBE16(TkhdNode(t).body, 76) == t.width % 0x1_0000 && ReadBE16(TkhdNode(t).body, 80) == t.height % 0x1_0000
  {
    hide ReadBE32, ReadBE16, FullBoxBytes, Tkhd, Ascii, BE32, BE16, UnityMatrix, VersionFlags;
    TkhdBody(t.id, t.width, t.height, t.volume);
    MatrixLength();
    var body := TkhdNode(t).body;
    assert body[76..80] == BE32(t.width * 0x1_0000) && body[80..84] == BE32(t.height * 0x1_0000);
    FixedPoint(body, 76, t.width);
    FixedPoint(body, 80, t.height);
  }

  lemma MatrixLength()
    ensures |UnityMatrix()| == 36
  {
  }

  lemma MediaBack(t: Track)
    requires t.LengthsFit() && |t.Mdia().body| < 0x1_0000_0000
    ensures var mdia := Some(t.Mdia().body);
            var mdhd := Within(mdia, Ascii("mdhd"));
            var stsd := Within(Within(Within(mdia, Ascii("minf")), Ascii("stbl")), Ascii("stsd"));
            && mdhd.Some? && |mdhd.value| >= 16 && ReadBE32(mdhd.value, 12) == t.Shown().timescale
            && stsd.Some? && ReadStsd(stsd.value) == Some(t.Shown().entry)
    ensures var hdlr := Within(Some(t.Mdia().body), Ascii("hdlr"));
            && hdlr.Some? && |hdlr.value| >= 12 && hdlr.value[8..12] == Ascii(if t.Shown().entry.AudioEntry? then "soun" else "vide")
  {
    hide ReadStsd, ReadBE32, Within, BoxOf, Boxes, MdiaNode, MdhdNode, StsdNode, SetsFit, Ascii, NodesFit, AudioFields, VideoFields,
         HdlrNode;
    match t
    case AudioTrack(_, c) =>
      HdlrBack("soun", "SoundHandler");
      MdhdBack(c.sampleRate);
      MdiaBack(c.sampleRate, HdlrNode("soun", "SoundHandler"), Full(Ascii("smhd"), 0, BE16(0) + BE16(0)), AudioNode(c));
      AudioStsd(c);
    case VideoTrack(_, c) =>
      HdlrBack("vide", "VideoHandler");
      MdhdBack(MPEG_TIMESCALE);
      MdiaBack(MPEG_TIMESCALE, HdlrNode("vide", "VideoHandler"), Full(Ascii("vmhd"), 1, Zeros(8)), VideoNode(c));
      VideoStsd(c);
  }

  lemma SizeShown(t: Track)
    ensures match t.Shown().entry
            case AudioEntry(_, _, _) => t.Trak().width == 0 && t.Trak().height == 0
            case VideoEntry(w, h, _, _, _) => w == t.Trak().width % 0x1_0000 && h == t.Trak().height % 0x1_0000
  {
  }

  /** A written track read back. */
  lemma TrackBack(t: Track)
    requires t.LengthsFit() && |TrakNode(t).body| < 0x1_0000_0000
    ensures ReadTrak(TrakNode(t).body) == Some(t.Shown())
  {
    hide ReadStsd, ReadBE32, Within, BoxOf, Boxes, TkhdNode, SetsFit, Ascii, NodesFit, Track.Mdia, U32;
    var k := t.Trak();
    var ns := [TkhdNode(k), t.Mdia()];
    TrackKinds(t);
    KindNames();
    Fit(ns);
    WithinBoxes(ns, Ascii("tkhd"));
    WithinBoxes(ns, Ascii("mdia"));
    SecondChild(ns, Ascii("mdia"));
    assert Child(ns, Ascii("tkhd")) == Some(TkhdNode(k).body);
    BodyFits(ns, t.Mdia());
    TkhdBack(k);
    MediaBack(t);
    assert k.id == t.id == t.Shown().id;
    SizeShown(t);
  }

  function MvexNode(i: nat): Node
  {
    Node(Ascii("mvex"), Boxes([Full(Ascii("trex"), 0, BE32(i) + BE32(1) + BE32(0) + BE32(0) + BE32(0))]))
  }

  lemma MvexIs(i: nat)
    ensures Mvex(i) == BoxOf(MvexNode(i))
  {
    hide BE32, BoxOf, BoxBytes, FullBoxBytes, Ascii, Full, Boxes;
    var n := Full(Ascii("trex"), 0, BE32(i) + BE32(1) + BE32(0) + BE32(0) + BE32(0));
    FullIs(Ascii("trex"), 0, BE32(i) + BE32(1) + BE32(0) + BE32(0) + BE32(0));
    ParentOne(Ascii("mvex"), BoxOf(n), n);
  }

  /** Tracks `i`, `i + 1`, ... each followed by its `mvex`. */
  function TrackNodes(ts: seq<Track>, i: nat): seq<Node>
  {
    if ts == [] then [] else [TrakNode(ts[0]), MvexNode(i)] + TrackNodes(ts[1..], i + 1)
  }

  function Headers(ts: seq<Track>): seq<Trak>
  {
    if ts == [] then [] else [ts[0].Trak()] + Headers(ts[1..])
  }

  function AllShown(ts: seq<Track>): seq<Declared>
  {
    if ts == [] then [] else [ts[0].Shown()] + AllShown(ts[1..])
  }

  lemma {:induction false} TracksWritten(ts: seq<Track>, i: nat)
    ensures TraksAndMvex(TrakBytes(Headers(ts)), i) == Written(TrackNodes(ts, i))
  {
    if ts != [] {
      TracksWritten(ts[1..], i + 1);
      hide BoxOf, TrakNode, MvexNode, Mvex, Track.Trak, Trak.Bytes;
      TraksSplit(Headers(ts), i);
      assert Headers(ts)[1..] == Headers(ts[1..]);
      TrakIs(ts[0]);
      MvexIs(i);
      WrittenSplit(TrakNode(ts[0]), MvexNode(i), TrackNodes(ts[1..], i + 1));
    }
  }

  lemma WrittenSplit(a: Node, b: Node, rest: seq<Node>)
    ensures Written([a, b] + rest) == [BoxOf(a), BoxOf(b)] + Written(rest)
  {
    hide BoxOf;
    assert ([a, b] + rest)[1..] == [b] + rest && ([b] + rest)[1..] == rest;
  }

  lemma {:induction false} TracksBack(ts: seq<Track>, i: nat)
    requires forall t :: t in ts ==> t.LengthsFit() && |TrakNode(t).body| < 0x1_0000_0000
    ensures ReadTraks(TrackNodes(ts, i)) == Some(AllShown(ts))
  {
    if ts != [] {
      TracksBack(ts[1..], i + 1);
      hide ReadTrak, Boxes, BoxOf, Ascii, Track.Shown, Track.LengthsFit;
      TrackBack(ts[0]);
      KindNames();
      TracksSplit(TrakNode(ts[0]), MvexNode(i), TrackNodes(ts[1..], i + 1));
    }
  }

  lemma TracksSplit(a: Node, b: Node, rest: seq<Node>)
    requires a.kind == Ascii("trak") && b.kind == Ascii("mvex")
    ensures ReadTraks([a, b] + rest)
         == match (ReadTrak(a.body), ReadTraks(rest)) case (Some(t), Some(more)) => Some([t] + more) case _ => None
  {
    hide ReadTrak, Ascii;
    KindNames();
    var ns := [a, b] + rest;
    assert ns[1..] == [b] + rest && ([b] + rest)[1..] == rest;
    assert ReadTraks([b] + rest) == ReadTraks(rest);
  }

  lemma {:induction false} TrackFits(ts: seq<Track>, i: nat, t: Track)
    requires t in ts
    ensures TrakNode(t) in TrackNodes(ts, i)
  {
    hide TrakNode, MvexNode;
    if t != ts[0] { TrackFits(ts[1..], i + 1, t); }
  }

  lemma {:induction false} NodeKinds(ts: seq<Track>, i: nat)
    ensures forall n :: n in TrackNodes(ts, i) ==> |n.kind| == 4
  {
    hide TrakNode, MvexNode, Ascii;
    if ts != [] {
      TrackKinds(ts[0]);
      MvexKind(i);
      NodeKinds(ts[1..], i + 1);
    }
  }

  lemma MvexKind(i: nat)
    ensures |MvexNode(i).kind| == 4 && MvexNode(i).kind == Ascii("mvex")
  {
  }

  function MvhdNode(): Node { Node(Ascii("mvhd"), Mvhd()[8..]) }

  lemma MvhdIs()
    ensures Mvhd() == BoxOf(MvhdNode())
  {
    hide BE32, BE16, BoxBytes, FullBoxBytes, Ascii, UnityMatrix, VersionFlags;
    var p := BE32(0) + BE32(0) + BE32(MPEG_TIMESCALE) + BE32(0) + BE32(0x1_0000) + BE16(0x100) + Zeros(10)
             + UnityMatrix() + Zeros(24) + BE32(0xFFFF_FFFF);
    FullIs(Ascii("mvhd"), 0, p);
    BoxTail(Ascii("mvhd"), VersionFlags(0, 0) + p);
  }

  function FtypNode(): Node { Node(Ascii("ftyp"), Ftyp()[8..]) }

  lemma FtypIs()
    ensures Ftyp() == BoxOf(FtypNode())
  {
    hide BE32, BoxBytes, Ascii;
    BoxTail(Ascii("ftyp"), Ascii("isom") + BE32(0x200) + Ascii("isom") + Ascii("iso6") + Ascii("mp41"));
  }

  function MoovNode(ts: seq<Track>): Node { Node(Ascii("moov"), Boxes([MvhdNode()] + TrackNodes(ts, 1))) }

  lemma InitIs(ts: seq<Track>)
    ensures InitBytes(TrakBytes(Headers(ts))) == Boxes([FtypNode(), MoovNode(ts)])
  {
    hide BoxOf, BoxBytes, Ascii, Boxes, Mvhd, MvhdNode, Ftyp, FtypNode, TrackNodes, TraksAndMvex, Headers, TrakBytes;
    MvhdIs();
    FtypIs();
    TracksWritten(ts, 1);
    var ns := [MvhdNode()] + TrackNodes(ts, 1);
    assert Written(ns) == [Mvhd()] + TraksAndMvex(TrakBytes(Headers(ts)), 1) by { assert ns[1..] == TrackNodes(ts, 1); }
    Parent(Ascii("moov"), [Mvhd()] + TraksAndMvex(TrakBytes(Headers(ts)), 1), ns);
    TwoBoxes(FtypNode(), MoovNode(ts));
  }

  lemma TwoBoxes(a: Node, b: Node)
    ensures Boxes([a, b]) == BoxOf(a) + BoxOf(b)
  {
    hide BoxOf;
    OneBox(b);
    assert [a, b][1..] == [b];
  }

  /** An init segment shows a player each of its tracks, in order: the id, the time scale, the 16 low bits of width,
      height, channel count and sample rate, and the codec configuration byte for byte. */
  lemma InitTracksBack(ts: seq<Track>)
    requires forall t :: t in ts ==> t.LengthsFit()
    requires |InitBytes(TrakBytes(Headers(ts)))| < 0x1_0000_0000
    ensures ReadInit(InitBytes(TrakBytes(Headers(ts)))) == Some(AllShown(ts))
  {
    hide BoxOf, Ascii, Boxes, MvhdNode, FtypNode, TrackNodes, Headers, TrakBytes, ReadTraks, ReadBoxes, Within, Track.LengthsFit,
         AllShown, InitBytes, TrakNode, NodesFit;
    InitIs(ts);
    KindNames();
    var top, ns := [FtypNode(), MoovNode(ts)], [MvhdNode()] + TrackNodes(ts, 1);
    TopKinds(ts);
    NodeKinds(ts, 1);
    Fit(top);
    WithinBoxes(top, Ascii("moov"));
    SecondChild(top, Ascii("moov"));
    BodyFits(top, MoovNode(ts));
    Fit(ns);
    BoxesBack(ns);
    forall t | t in ts ensures |TrakNode(t).body| < 0x1_0000_0000 {
      TrackFits(ts, 1, t);
      BodyFits(ns, TrakNode(t));
    }
    TracksBack(ts, 1);
    assert ns[1..] == TrackNodes(ts, 1);
    SkipNode(ns);
  }

  // ------------------------------------------------------------------ which tracks fragments may add to

  /** The track of every `trex` box, each of them in an `mvex` of its own. */
  function ReadTrexes(nodes: seq<Node>): Option<seq<nat>>
  {
    if nodes == [] then Some([])
    else if nodes[0].kind != Ascii("mvex") then ReadTrexes(nodes[1..])
    else
      match (Within(Some(nodes[0].body), Ascii("trex")), ReadTrexes(nodes[1..]))
      case (Some(trex), Some(rest)) => if |trex| < 8 then None else Some([ReadBE32(trex, 4)] + rest)
      case _ => None
  }

  function ReadExtended(d: seq<byte>): Option<seq<nat>>
  {
    match Within(Some(d), Ascii("moov"))
    case None => None
    case Some(moov) => match ReadBoxes(moov) case None => None case Some(nodes) => ReadTrexes(nodes)
  }

  lemma MvexBack(i: nat)
    requires i < 0x1_0000_0000
    ensures var trex := Within(Some(MvexNode(i).body), Ascii("trex"));
            trex.Some? && |trex.value| >= 8 && ReadBE32(trex.value, 4) == i
  {
    hide BE32, BoxOf, Boxes, Ascii, ReadBE32, Within, VersionFlags;
    var n := Full(Ascii("trex"), 0, BE32(i) + BE32(1) + BE32(0) + BE32(0) + BE32(0));
    BoxOfSize(n);
    OneBox(n);
    TrexKind();
    Fit([n]);
    WithinBoxes([n], Ascii("trex"));
    assert n.body[4..8] == BE32(i);
    ReadBE32At(n.body, 4, i);
  }

  lemma TrexKind()
    ensures |Ascii("trex")| == 4 && Ascii("mvex") != Ascii("trak") && Ascii("mvex") != Ascii("mvhd")
  {
    assert Ascii("mvex")[0] != Ascii("trak")[0] && Ascii("mvex")[2] != Ascii("mvhd")[2];
  }

  /** `i`, `i + 1`, ..., `n` numbers. */
  function Counting(i: nat, n: nat): seq<nat>
    decreases n
  {
    if n == 0 then [] else [i] + Counting(i + 1, n - 1)
  }

  lemma {:induction false} TrexesBack(ts: seq<Track>, i: nat)
    requires i + |ts| <= 0x1_0000_0000
    ensures ReadTrexes(TrackNodes(ts, i)) == Some(Counting(i, |ts|))
    decreases |ts|
  {
    hide *;
    TrexesStart(ts, i);
    if ts != [] {
      TrexesBack(ts[1..], i + 1);
      TrackKinds(ts[0]);
      MvexKind(i);
      TrexKind();
      TrexesSplit(TrakNode(ts[0]), i, TrackNodes(ts[1..], i + 1));
    }
  }

  lemma TrexesStart(ts: seq<Track>, i: nat)
    ensures ts == [] ==> ReadTrexes(TrackNodes(ts, i)) == Some([]) && Counting(i, |ts|) == []
    ensures ts != [] ==> TrackNodes(ts, i) == [TrakNode(ts[0]), MvexNode(i)] + TrackNodes(ts[1..], i + 1)
                         && Counting(i, |ts|) == [i] + Counting(i + 1, |ts[1..]|)
  {
    hide TrakNode, MvexNode;
  }

  lemma TrexesSplit(a: Node, i: nat, rest: seq<Node>)
    requires a.kind == Ascii("trak") && MvexNode(i).kind == Ascii("mvex") && i < 0x1_0000_0000
    ensures ReadTrexes([a, MvexNode(i)] + rest) == match ReadTrexes(rest) case None => None case Some(more) => Some([i] + more)
  {
    hide Within, MvexNode, Ascii, ReadBE32;
    MvexBack(i);
    TrexKind();
    var ns := [a, MvexNode(i)] + rest;
    assert ns[1..] == [MvexNode(i)] + rest && ([MvexNode(i)] + rest)[1..] == rest;
    SkipOther(ns);
  }

  /** An init segment says of tracks 1, 2, ..., as many as there are, and no others, that fragments add to them. */
  lemma ExtendedBack(ts: seq<Track>)
    requires |ts| < 0x1000_0000 && |InitBytes(TrakBytes(Headers(ts)))| < 0x1_0000_0000
    ensures ReadExtended(InitBytes(TrakBytes(Headers(ts)))) == Some(Counting(1, |ts|))
  {
    hide BoxOf, Ascii, Boxes, MvhdNode, FtypNode, TrackNodes, Headers, TrakBytes, ReadTrexes, ReadBoxes, Within, InitBytes, TrakNode, NodesFit;
    InitIs(ts);
    KindNames();
    var top, ns := [FtypNode(), MoovNode(ts)], [MvhdNode()] + TrackNodes(ts, 1);
    TopKinds(ts);
    NodeKinds(ts, 1);
    Fit(top);
    WithinBoxes(top, Ascii("moov"));
    SecondChild(top, Ascii("moov"));
    BodyFits(top, MoovNode(ts));
    Fit(ns);
    BoxesBack(ns);
    TrexesBack(ts, 1);
    TrexKind();
    assert ns[1..] == TrackNodes(ts, 1);
    SkipOther(ns);
  }

  lemma SkipOther(ns: seq<Node>)
    requires ns != [] && ns[0].kind != Ascii("mvex")
    ensures ReadTrexes(ns) == ReadTrexes(ns[1..])
  {
  }

  lemma SkipNode(ns: seq<Node>)
    requires ns != [] && ns[0].kind != Ascii("trak")
    ensures ReadTraks(ns) == ReadTraks(ns[1..])
  {
  }

  lemma TopKinds(ts: seq<Track>)
    ensures MvhdNode().kind == Ascii("mvhd") && FtypNode().kind == Ascii("ftyp") && MoovNode(ts).kind == Ascii("moov")
    ensures |MvhdNode().kind| == |FtypNode().kind| == |MoovNode(ts).kind| == 4
  {
  }

  // ------------------------------------------------------------------ what a player can rely on

  /** The tracks of a transmuxer with these configurations, video first. */
  function TracksOf(v: Option<VideoTrackConfig>, a: Option<AudioTrackConfig>): seq<Track>
  {
    (match v case None => [] case Some(c) => [VideoTrack(1, c)])
    + (match a case None => [] case Some(c) => [AudioTrack(if v.Some? then 2 else 1, c)])
  }

  lemma HeadersOf(v: Option<VideoTrackConfig>, a: Option<AudioTrackConfig>)
    ensures Headers(TracksOf(v, a)) == Traks(v, a)
  {
    hide VideoMdia, AudioMdia;
    var ts := TracksOf(v, a);
    if ts != [] {
      assert Headers(ts[1..]) == if |ts| == 2 then [ts[1].Trak()] else [];
    }
  }

  /** The init segment of a transmuxer with these configurations, read back. */
  lemma DeclaredBack(v: Option<VideoTrackConfig>, a: Option<AudioTrackConfig>)
    requires v.Some? ==> SetsFit(v.value)
    requires a.Some? ==> |a.value.audioSpecificConfig| < 200
    requires |InitBytes(TrakBytes(Traks(v, a)))| < 0x1_0000_0000
    ensures ReadInit(InitBytes(TrakBytes(Traks(v, a)))) == Some(AllShown(TracksOf(v, a)))
  {
    hide ReadInit, InitBytes, TrakBytes, Traks, Headers, AllShown, SetsFit;
    HeadersOf(v, a);
    InitTracksBack(TracksOf(v, a));
  }

  /** What the transmuxer means a player to learn. */
  function Meant(t: Track): Declared
  {
    match t
    case AudioTrack(id, c) =>
      Declared(id, c.sampleRate, AudioEntry(c.channelConfiguration, c.sampleRate, c.audioSpecificConfig))
    case VideoTrack(id, c) => Declared(id, MPEG_TIMESCALE, VideoEntry(c.width, c.height, ProfileBytes(c), c.sps, c.pps))
  }

  function AllMeant(ts: seq<Track>): seq<Declared>
  {
    if ts == [] then [] else [Meant(ts[0])] + AllMeant(ts[1..])
  }

  predicate Word(v: int) { 0 <= v < 0x1_0000 }

  predicate SizeFits(v: Option<VideoTrackConfig>) { v.Some? ==> Word(v.value.width) && Word(v.value.height) }

  predicate RateFits(a: Option<AudioTrackConfig>)
  {
    a.Some? ==> Word(a.value.channelConfiguration) && Word(a.value.sampleRate)
  }

  /** A player learns what is meant exactly when width and height, channel count and sample rate have 16 bits. */
  lemma ConfigurationKeptIff(v: Option<VideoTrackConfig>, a: Option<AudioTrackConfig>)
    requires v.Some? ==> SetsFit(v.value)
    requires a.Some? ==> |a.value.audioSpecificConfig| < 200
    requires |InitBytes(TrakBytes(Traks(v, a)))| < 0x1_0000_0000
    ensures ReadInit(InitBytes(TrakBytes(Traks(v, a)))) == Some(AllMeant(TracksOf(v, a))) <==> SizeFits(v) && RateFits(a)
  {
    hide *;
    DeclaredBack(v, a);
    ListsAgreeIff(TracksOf(v, a));
    AgreeIff(v, a);
  }

  lemma AgreeIff(v: Option<VideoTrackConfig>, a: Option<AudioTrackConfig>)
    ensures (forall t :: t in TracksOf(v, a) ==> t.Shown() == Meant(t)) <==> SizeFits(v) && RateFits(a)
  {
    var ts := TracksOf(v, a);
    forall t | t in ts ensures t.Shown() == Meant(t) <==> Kept(t) { ShownIsMeantIff(t); }
    hide Track.Shown, Meant;
    if v.Some? { assert ts[0] == VideoTrack(1, v.value) && Kept(ts[0]) == SizeFits(v); }
    if a.Some? { assert ts[|ts| - 1] == AudioTrack(if v.Some? then 2 else 1, a.value) && Kept(ts[|ts| - 1]) == RateFits(a); }
  }

  predicate Kept(t: Track)
  {
    match t
    case AudioTrack(_, c) => Word(c.channelConfiguration) && Word(c.sampleRate)
    case VideoTrack(_, c) => Word(c.width) && Word(c.height)
  }

  lemma {:induction false} ListsAgreeIff(ts: seq<Track>)
    ensures AllShown(ts) == AllMeant(ts) <==> forall t :: t in ts ==> t.Shown() == Meant(t)
  {
    hide Track.Shown, Meant;
    if ts != [] {
      ListsAgreeIff(ts[1..]);
      assert AllShown(ts)[0] == ts[0].Shown() && AllMeant(ts)[0] == Meant(ts[0]);
      assert AllShown(ts)[1..] == AllShown(ts[1..]) && AllMeant(ts)[1..] == AllMeant(ts[1..]);
      assert forall t :: t in ts <==> t == ts[0] || t in ts[1..];
    }
  }

  lemma ShownIsMeantIff(t: Track)
    ensures t.Shown() == Meant(t) <==> Kept(t)
  {
  }

  lemma LastShown(v: Option<VideoTrackConfig>, c: AudioTrackConfig)
    ensures var shown := AllShown(TracksOf(v, Some(c)));
            shown != [] && shown[|shown| - 1] == AudioTrack(if v.Some? then 2 else 1, c).Shown()
  {
    hide Track.Shown;
    var ts := TracksOf(v, Some(c));
    assert AllShown([]) == [];
    if v.Some? { assert ts[1..] == [ts[1]] && AllShown(ts[1..]) == [ts[1].Shown()] + AllShown([]); }
  }

  lemma RateKept(i: nat)
    ensures U32(Adts.SampleRate(i)) == Adts.SampleRate(i)
    ensures Adts.SampleRate(i) % 0x1_0000 == Adts.SampleRate(i) <==> i >= 2
  {
  }

  /** Of the sample rates of an ADTS header the first two, 96000 and 88200 Hz, are lost in the sample entry; the time scale
      and the codec configuration always tell the rate. */
  lemma RateKeptIff(v: Option<VideoTrackConfig>, f: Adts.AdtsFrame)
    requires v.Some? ==> SetsFit(v.value)
    requires |InitBytes(TrakBytes(Traks(v, Some(ConfigOfFrame(f)))))| < 0x1_0000_0000
    ensures var tracks := ReadInit(InitBytes(TrakBytes(Traks(v, Some(ConfigOfFrame(f))))));
            && tracks.Some? && tracks.value != []
            && var rate, shown := Adts.SampleRate(f.samplingFrequencyIndex), tracks.value[|tracks.value| - 1];
            && shown.entry.AudioEntry? && (shown.entry.sampleRate == rate <==> f.samplingFrequencyIndex >= 2)
            && shown.timescale == rate && shown.entry.audioSpecificConfig == Adts.AudioSpecificConfig(f)
  {
    hide ReadInit, InitBytes, TrakBytes, Traks, TracksOf, AllShown, SetsFit, U32, Adts.SampleRate, Adts.AudioSpecificConfig;
    DeclaredBack(v, Some(ConfigOfFrame(f)));
    LastShown(v, ConfigOfFrame(f));
    RateKept(f.samplingFrequencyIndex);
  }
}
