/**
 ISO base media file format fragments (ISO/IEC 14496-12 sections 4.2, 8.8.5, 8.8.8 and 8.8.12):
 the box writers, the patch of the data offset, and an independent box reader.
 */
module Mp4 {
  import opened Bytes
  import opened Wrappers
  import opened Buffer

  const MPEG_TIMESCALE := 90000

  /** A four-character box type. */
  function Ascii(s: string): (b: seq<byte>)
    ensures |b| == |s|
  {
    seq(|s|, k requires 0 <= k < |s| => s[k] as int % 256)
  }

  // ------------------------------------------------------------------ box writers

  function BoxBytes(kind: seq<byte>, payloads: seq<seq<byte>>): seq<byte>
  {
    BE32(8 + TotalLength(payloads)) + kind + Concat(payloads)
  }

  function FullBoxBytes(kind: seq<byte>, version: int, flags: nat, payload: seq<byte>): seq<byte>
  {
    BE32(12 + |payload|) + kind
    + [version % 256, flags / 0x1_0000 % 256, flags / 0x100 % 256, flags % 256] + payload
  }

  method Box(kind: seq<byte>, payloads: seq<seq<byte>>) returns (bytes: seq<byte>)
    ensures bytes == BoxBytes(kind, payloads)
  {
    var size := 8;
    for i := 0 to |payloads|
      invariant size == 8 + TotalLength(payloads[..i])
    {
      assert payloads[..i + 1] == payloads[..i] + [payloads[i]];
      TotalLengthSnoc(payloads[..i], payloads[i]);
      size := size + |payloads[i]|;
    }
    assert payloads[..|payloads|] == payloads;
    var writer := new BufferWriter(size);
    writer.WriteUint32(size);
    writer.WriteBytes(kind);
    ghost var head := BE32(size) + kind;
    for i := 0 to |payloads|
      invariant writer.Valid() && fresh(writer) && fresh(writer.buffer) && writer.buffer.Length > 0
      invariant writer.Contents() == head + Concat(payloads[..i])
    {
      assert payloads[..i + 1] == payloads[..i] + [payloads[i]];
      ConcatSnoc(payloads[..i], payloads[i]);
      assert (head + Concat(payloads[..i])) + payloads[i] == head + (Concat(payloads[..i]) + payloads[i]);
      writer.WriteBytes(payloads[i]);
    }
    bytes := writer.ToUint8Array();
  }

  method FullBox(kind: seq<byte>, version: int, flags: nat, payload: seq<byte>) returns (bytes: seq<byte>)
    ensures bytes == FullBoxBytes(kind, version, flags, payload)
  {
    hide BE32;
    var size := 12 + |payload|;
    var writer := new BufferWriter(size);
    writer.WriteUint32(size);
    writer.WriteBytes(kind);
    WriteVersionAndFlags(writer, version, flags);
    writer.WriteBytes(payload);
    bytes := writer.ToUint8Array();
  }

  method WriteVersionAndFlags(writer: BufferWriter, version: int, flags: nat)
    requires writer.Valid() && writer.buffer.Length > 0
    modifies writer, writer.buffer
    ensures writer.Valid() && writer.buffer.Length > 0 && (writer.buffer == old(writer.buffer) || fresh(writer.buffer))
    ensures writer.Contents() == old(writer.Contents())
      + [version % 256, flags / 0x1_0000 % 256, flags / 0x100 % 256, flags % 256]
  {
    writer.WriteUint8(version);
    writer.WriteUint8(flags / 0x1_0000);
    writer.WriteUint8(flags / 0x100);
    writer.WriteUint8(flags);
    FlagBytes(old(writer.Contents()), version % 256, flags / 0x1_0000 % 256, flags / 0x100 % 256, flags % 256);
  }

  lemma FlagBytes(a: seq<byte>, b0: byte, b1: byte, b2: byte, b3: byte)
    ensures a + [b0] + [b1] + [b2] + [b3] == a + [b0, b1, b2, b3]
  {
  }

  datatype SampleEntry = SampleEntry(duration: int, size: int, flags: Option<int>, cto: Option<int>)

  datatype MoofOptions = MoofOptions(sequenceNumber: int, trackId: int, baseDecodeTime: int, samples: seq<SampleEntry>)

  predicate HasFlags(samples: seq<SampleEntry>)
  {
    exists s :: s in samples && s.flags.Some?
  }

  predicate HasCto(samples: seq<SampleEntry>)
  {
    exists s :: s in samples && s.cto.Some?
  }

  function GetOr(o: Option<int>, default: int): int
  {
    match o case None => default case Some(v) => v
  }

  /** One row of the sample table. */
  function SampleBytes(s: SampleEntry, hasFlags: bool, hasCto: bool): seq<byte>
  {
    BE32(s.duration) + BE32(s.size)
    + (if hasFlags then BE32(GetOr(s.flags, 0)) else [])
    + (if hasCto then BE32(GetOr(s.cto, 0)) else [])
  }

  function TableBytes(samples: seq<SampleEntry>, hasFlags: bool, hasCto: bool): seq<byte>
  {
    if samples == [] then [] else SampleBytes(samples[0], hasFlags, hasCto) + TableBytes(samples[1..], hasFlags, hasCto)
  }

  function TrunFlags(hasFlags: bool, hasCto: bool): nat
  {
    0x301 + (if hasFlags then 0x400 else 0) + (if hasCto then 0x800 else 0)
  }

  /** The track run box; the writer leaves `dataOffset` at 0 for the patch to fill in. */
  function TrunBytes(samples: seq<SampleEntry>, dataOffset: int): seq<byte>
  {
    var f, c := HasFlags(samples), HasCto(samples);
    FullBoxBytes(Ascii("trun"), if c then 1 else 0, TrunFlags(f, c),
                 BE32(|samples|) + BE32(dataOffset) + TableBytes(samples, f, c))
  }

  /** One turn of the sample loop. */
  method WriteRow(writer: BufferWriter, sample: SampleEntry, hasFlags: bool, hasCto: bool)
    requires writer.Valid() && writer.buffer.Length > 0
    modifies writer, writer.buffer
    ensures writer.Valid() && writer.buffer.Length > 0 && (writer.buffer == old(writer.buffer) || fresh(writer.buffer))
    ensures writer.Contents() == old(writer.Contents()) + SampleBytes(sample, hasFlags, hasCto)
  {
    hide BE32;
    writer.WriteUint32(sample.duration);
    writer.WriteUint32(sample.size);
    if hasFlags { writer.WriteUint32(GetOr(sample.flags, 0)); }
    if hasCto { writer.WriteUint32(GetOr(sample.cto, 0)); }
    RowWritten(old(writer.Contents()), sample, hasFlags, hasCto, writer.Contents());
  }

  method Trun(samples: seq<SampleEntry>) returns (bytes: seq<byte>)
    ensures bytes == TrunBytes(samples, 0)
  {
    hide BE32, SampleBytes, FullBoxBytes;
    var hasFlags := HasFlags(samples);
    var hasCto := HasCto(samples);
    var flags := 0x301;
    if hasFlags { flags := flags + 0x400; }
    if hasCto { flags := flags + 0x800; }
    var entrySize := 8;
    if hasFlags { entrySize := entrySize + 4; }
    if hasCto { entrySize := entrySize + 4; }
    EntrySize(|samples|, entrySize);
    var writer := new BufferWriter(8 + |samples| * entrySize);
    writer.WriteUint32(|samples|);
    writer.WriteUint32(0);
    ghost var head := BE32(|samples|) + BE32(0);
    for i := 0 to |samples|
      invariant writer.Valid() && fresh(writer) && fresh(writer.buffer) && writer.buffer.Length > 0
      invariant writer.Contents() == head + TableBytes(samples[..i], hasFlags, hasCto)
    {
      var sample := samples[i];
      WriteRow(writer, sample, hasFlags, hasCto);
      TableSnoc(samples[..i], sample, hasFlags, hasCto);
      assert samples[..i + 1] == samples[..i] + [sample];
      assert (head + TableBytes(samples[..i], hasFlags, hasCto)) + SampleBytes(sample, hasFlags, hasCto)
          == head + (TableBytes(samples[..i], hasFlags, hasCto) + SampleBytes(sample, hasFlags, hasCto));
    }
    assert samples[..|samples|] == samples;
    var payload := writer.ToUint8Array();
    bytes := FullBox(Ascii("trun"), if hasCto then 1 else 0, flags, payload);
  }

  lemma EntrySize(n: nat, size: nat)
    ensures n * size >= 0
  {
  }

  lemma RowWritten(before: seq<byte>, s: SampleEntry, hasFlags: bool, hasCto: bool, after: seq<byte>)
    requires var w := before + BE32(s.duration) + BE32(s.size);
             var x := if hasFlags then w + BE32(GetOr(s.flags, 0)) else w;
             after == if hasCto then x + BE32(GetOr(s.cto, 0)) else x
    ensures after == before + SampleBytes(s, hasFlags, hasCto)
  {
  }

  lemma {:induction false} TableSnoc(samples: seq<SampleEntry>, s: SampleEntry, hasFlags: bool, hasCto: bool)
    ensures TableBytes(samples + [s], hasFlags, hasCto)
         == TableBytes(samples, hasFlags, hasCto) + SampleBytes(s, hasFlags, hasCto)
  {
    hide SampleBytes;
    if samples == [] {
      assert samples + [s] == [s];
      assert TableBytes([s], hasFlags, hasCto) == SampleBytes(s, hasFlags, hasCto) + TableBytes([], hasFlags, hasCto);
    } else {
      assert (samples + [s])[1..] == samples[1..] + [s];
      TableSnoc(samples[1..], s, hasFlags, hasCto);
    }
  }

  function MfhdBytes(sequenceNumber: int): seq<byte> { FullBoxBytes(Ascii("mfhd"), 0, 0, BE32(sequenceNumber)) }

  function TfhdBytes(trackId: int): seq<byte> { FullBoxBytes(Ascii("tfhd"), 0, 0x02_0000, BE32(trackId)) }

  function TfdtBytes(baseDecodeTime: int): seq<byte> { FullBoxBytes(Ascii("tfdt"), 0, 0, BE32(baseDecodeTime)) }

  function TrafBytes(o: MoofOptions, dataOffset: int): seq<byte>
  {
    BoxBytes(Ascii("traf"), [TfhdBytes(o.trackId), TfdtBytes(o.baseDecodeTime), TrunBytes(o.samples, dataOffset)])
  }

  /** A movie fragment header with the given data offset. */
  function MoofBytes(o: MoofOptions, dataOffset: int): seq<byte>
  {
    BoxBytes(Ascii("moof"), [MfhdBytes(o.sequenceNumber), TrafBytes(o, dataOffset)])
  }

  function MdatBytes(data: seq<byte>): seq<byte> { BoxBytes(Ascii("mdat"), [data]) }

  method Moof(o: MoofOptions) returns (bytes: seq<byte>)
    ensures bytes == MoofBytes(o, 0)
  {
    hide BoxBytes, FullBoxBytes, TrunBytes;
    var mfhd := FullBox(Ascii("mfhd"), 0, 0, BE32(o.sequenceNumber));
    var tfhd := FullBox(Ascii("tfhd"), 0, 0x02_0000, BE32(o.trackId));
    var tfdt := FullBox(Ascii("tfdt"), 0, 0, BE32(o.baseDecodeTime));
    var trun := Trun(o.samples);
    var traf := Box(Ascii("traf"), [tfhd, tfdt, trun]);
    bytes := Box(Ascii("moof"), [mfhd, traf]);
  }

  method Mdat(data: seq<byte>) returns (bytes: seq<byte>)
    ensures bytes == MdatBytes(data)
  {
    bytes := Box(Ascii("mdat"), [data]);
  }

  // ------------------------------------------------------------------ patching the data offset

  function SizeAt(d: seq<byte>, pos: nat): nat
  {
    var a: int, b: int, c: int, e: int := Num(d, pos), Num(d, pos + 1), Num(d, pos + 2), Num(d, pos + 3);
    a * 0x100_0000 + b * 0x1_0000 + c * 0x100 + e
  }

  function KindAt(d: seq<byte>, pos: nat): seq<byte>
  {
    [Num(d, pos + 4), Num(d, pos + 5), Num(d, pos + 6), Num(d, pos + 7)]
  }

  /** The walk over the children of a `traf` reaches a `trun` or the end; a size of 0 would hold it in place. */
  ghost predicate InnerEnds(d: seq<byte>, p: nat, end: nat)
    decreases end - p
  {
    p < end && KindAt(d, p) != Ascii("trun") ==> SizeAt(d, p) > 0 && InnerEnds(d, p + SizeAt(d, p), end)
  }

  /** The first `trun` among the children of a `traf`. */
  function TrunIn(d: seq<byte>, p: nat, end: nat): Option<nat>
    decreases end - p
  {
    if p >= end then None
    else if KindAt(d, p) == Ascii("trun") then Some(p)
    else if SizeAt(d, p) > 0 then TrunIn(d, p + SizeAt(d, p), end)
    else None
  }

  function TrunOfBox(d: seq<byte>, pos: nat): Option<nat>
  {
    if KindAt(d, pos) == Ascii("traf") then TrunIn(d, pos + 8, pos + SizeAt(d, pos)) else None
  }

  ghost predicate WalkEnds(d: seq<byte>, pos: nat)
    decreases |d| - pos
  {
    pos < |d| ==>
      && (KindAt(d, pos) == Ascii("traf") ==> InnerEnds(d, pos + 8, pos + SizeAt(d, pos)))
      && (TrunOfBox(d, pos).None? ==> SizeAt(d, pos) > 0 && WalkEnds(d, pos + SizeAt(d, pos)))
  }

  /** The first `trun` inside any `traf` from `pos` on. */
  function FindTrun(d: seq<byte>, pos: nat): Option<nat>
    decreases |d| - pos
  {
    if pos >= |d| then None
    else if TrunOfBox(d, pos).Some? then TrunOfBox(d, pos)
    else if SizeAt(d, pos) > 0 then FindTrun(d, pos + SizeAt(d, pos))
    else None
  }

  /** `d` with `bytes` written over it at `at`; what would fall behind the end is not written. */
  function Splice(d: seq<byte>, at: nat, bytes: seq<byte>): (r: seq<byte>)
    ensures |r| == |d|
  {
    seq(|d|, k requires 0 <= k < |d| => if at <= k < at + |bytes| then bytes[k - at] else d[k])
  }

  function Patched(d: seq<byte>, dataOffset: int): seq<byte>
  {
    match FindTrun(d, 8)
    case None => d
    case Some(p) => Splice(d, p + 16, BE32(dataOffset))
  }

  /** Assigning behind the end of a byte array has no effect. */
  method SetBytes(a: array<byte>, at: nat, bytes: seq<byte>)
    modifies a
    ensures a[..] == Splice(old(a[..]), at, bytes)
  {
    for j := 0 to |bytes|
      invariant a[..] == Splice(old(a[..]), at, bytes[..j])
    {
      if at + j < a.Length { a[at + j] := bytes[j]; }
    }
    assert bytes[..|bytes|] == bytes;
  }

  method FindTrunIn(d: seq<byte>, start: nat, end: nat) returns (found: Option<nat>)
    requires InnerEnds(d, start, end)
    ensures found == TrunIn(d, start, end)
  {
    hide KindAt, SizeAt;
    var trafPos := start;
    while trafPos < end
      invariant InnerEnds(d, trafPos, end)
      invariant TrunIn(d, trafPos, end) == TrunIn(d, start, end)
      decreases end - trafPos
    {
      if KindAt(d, trafPos) == Ascii("trun") { return Some(trafPos); }
      trafPos := trafPos + SizeAt(d, trafPos);
    }
    found := None;
  }

  /** Walks the boxes behind the `moof` header and overwrites the data offset of the first `trun`,
      in place and nothing else. */
  method PatchDataOffset(moofData: array<byte>, moofSize: nat)
    requires WalkEnds(moofData[..], 8)
    modifies moofData
    ensures moofData[..] == Patched(old(moofData[..]), moofSize + 8)
  {
    hide KindAt, SizeAt, InnerEnds, TrunIn;
    var dataOffset := moofSize + 8;
    var d := moofData[..];
    var pos := 8;
    while pos < moofData.Length
      invariant moofData[..] == d
      invariant WalkEnds(d, pos)
      invariant FindTrun(d, pos) == FindTrun(d, 8)
      decreases moofData.Length - pos
    {
      var boxSize := SizeAt(d, pos);
      if KindAt(d, pos) == Ascii("traf") {
        var found := FindTrunIn(d, pos + 8, pos + boxSize);
        if found.Some? {
          SetBytes(moofData, found.value + 16, BE32(dataOffset));
          return;
        }
      }
      pos := pos + boxSize;
    }
  }

  // ------------------------------------------------------------------ an independent reader

  datatype Node = Node(kind: seq<byte>, body: seq<byte>)

  /** Cuts `d` into boxes; sizes that do not tile it exactly are refused. */
  function ReadBoxes(d: seq<byte>): Option<seq<Node>>
    decreases |d|
  {
    if d == [] then Some([])
    else if |d| < 8 then None
    else
      var size := ReadBE32(d, 0);
      if size < 8 || size > |d| then None
      else
        match ReadBoxes(d[size..])
        case None => None
        case Some(rest) => Some([Node(d[4..8], d[8..size])] + rest)
  }

  /** What a track fragment says. */
  datatype Fragment = Fragment(sequenceNumber: nat, trackId: nat, baseDecodeTime: nat, dataOffset: nat,
                               samples: seq<SampleEntry>)

  function Signed32(v: nat): int
  {
    if v < 0x8000_0000 then v else v - 0x1_0000_0000
  }

  function ReadRows(d: seq<byte>, n: nat, hasFlags: bool, hasCto: bool): Option<seq<SampleEntry>>
    decreases n
  {
    if n == 0 then if d == [] then Some([]) else None
    else
      var flagsAt := 8;
      var ctoAt := if hasFlags then 12 else 8;
      var size := if hasCto then ctoAt + 4 else ctoAt;
      if |d| < size then None
      else
        var row := SampleEntry(ReadBE32(d, 0), ReadBE32(d, 4),
                               if hasFlags then Some(ReadBE32(d, flagsAt)) else None,
                               if hasCto then Some(Signed32(ReadBE32(d, ctoAt))) else None);
        match ReadRows(d[size..], n - 1, hasFlags, hasCto)
        case None => None
        case Some(rest) => Some([row] + rest)
  }

  /** The data offset and the rows of a `trun` body that declares offset, durations and sizes; composition offsets are signed from
      version 1 on. */
  function ReadTrun(body: seq<byte>): Option<(nat, seq<SampleEntry>)>
  {
    if |body| < 12 then None
    else
      var b2: int, b3: int := body[2], body[3];
      var flags := b2 * 256 + b3;
      if flags % 2 == 0 || flags / 0x100 % 4 != 3 || (flags / 0x800 % 2 == 1 && body[0] == 0) then None
      else
        match ReadRows(body[12..], ReadBE32(body, 4), flags / 0x400 % 2 == 1, flags / 0x800 % 2 == 1)
        case None => None
        case Some(rows) => Some((ReadBE32(body, 8), rows))
  }

  /** Offsets count from the start of the fragment, and the decode time has 32 bits. */
  function ReadTraf(sequenceNumber: nat, body: seq<byte>): Option<Fragment>
  {
    match ReadBoxes(body)
    case None => None
    case Some(nodes) =>
      if |nodes| == 3 && nodes[0].kind == Ascii("tfhd") && nodes[1].kind == Ascii("tfdt") && nodes[2].kind == Ascii("trun")
         && |nodes[0].body| == 8 && |nodes[1].body| == 8 && nodes[0].body[..4] == [0, 2, 0, 0] && nodes[1].body[0] == 0
      then
        match ReadTrun(nodes[2].body)
        case None => None
        case Some(run) =>
          Some(Fragment(sequenceNumber, ReadBE32(nodes[0].body, 4), ReadBE32(nodes[1].body, 4), run.0, run.1))
      else None
  }

  function ReadMoof(body: seq<byte>): Option<Fragment>
  {
    match ReadBoxes(body)
    case None => None
    case Some(nodes) =>
      if |nodes| == 2 && nodes[0].kind == Ascii("mfhd") && nodes[1].kind == Ascii("traf") && |nodes[0].body| == 8
      then ReadTraf(ReadBE32(nodes[0].body, 4), nodes[1].body)
      else None
  }

  /** Cuts consecutive samples out of `d` from `at` on. */
  function CutSamples(d: seq<byte>, at: nat, samples: seq<SampleEntry>): Option<seq<seq<byte>>>
    decreases |samples|
  {
    if samples == [] then Some([])
    else
      var size := samples[0].size;
      if size < 0 || at + size > |d| then None
      else
        match CutSamples(d, at + size, samples[1..])
        case None => None
        case Some(rest) => Some([d[at..at + size]] + rest)
  }

  /** A fragment with the bytes of each of its samples. */
  datatype Media = Media(fragment: Fragment, data: seq<seq<byte>>)

  /** Reads a media segment: pairs of `moof` and `mdat`, each sample cut at the offset its fragment names. */
  function ReadMedia(d: seq<byte>): Option<seq<Media>>
    decreases |d|
  {
    if d == [] then Some([])
    else if |d| < 8 then None
    else
      var m := ReadBE32(d, 0);
      if m < 8 || m + 8 > |d| || d[4..8] != Ascii("moof") || d[m + 4..m + 8] != Ascii("mdat") then None
      else
        var n := ReadBE32(d, m);
        if n < 8 || m + n > |d| then None
        else
          match ReadMoof(d[8..m])
          case None => None
          case Some(f) =>
            match CutSamples(d[..m + n], f.dataOffset, f.samples)
            case None => None
            case Some(data) =>
              match ReadMedia(d[m + n..])
              case None => None
              case Some(rest) => Some([Media(f, data)] + rest)
  }

  // ------------------------------------------------------------------ reading back what was written

  /** The parts of a box as they stand in `d`. */
  lemma BoxParts(d: seq<byte>, kind: seq<byte>, payloads: seq<seq<byte>>, rest: seq<byte>)
    requires |kind| == 4 && d == BoxBytes(kind, payloads) + rest
    requires 8 + TotalLength(payloads) < 0x1_0000_0000
    ensures var size := 8 + TotalLength(payloads);
            && |BoxBytes(kind, payloads)| == size <= |d|
            && ReadBE32(d, 0) == size && d[4..8] == kind && d[8..size] == Concat(payloads) && d[size..] == rest
  {
    hide BE32, ReadBE32;
    TotalLengthIsConcatLength(payloads);
    var size := 8 + TotalLength(payloads);
    assert d[0..4] == BE32(size);
    ReadBE32At(d, 0, size);
  }

  lemma BoxBack(d: seq<byte>, kind: seq<byte>, payloads: seq<seq<byte>>, rest: seq<byte>)
    requires |kind| == 4 && d == BoxBytes(kind, payloads) + rest
    requires 8 + TotalLength(payloads) < 0x1_0000_0000
    ensures ReadBoxes(d) == match ReadBoxes(rest) case None => None
                            case Some(ns) => Some([Node(kind, Concat(payloads))] + ns)
  {
    hide BoxBytes, ReadBE32;
    BoxParts(d, kind, payloads, rest);
  }

  /** The four bytes of version and flags. */
  function VersionFlags(version: int, flags: nat): (v: seq<byte>)
    ensures |v| == 4
  {
    [version % 256, flags / 0x1_0000 % 256, flags / 0x100 % 256, flags % 256]
  }

  lemma FullBoxIsBox(kind: seq<byte>, version: int, flags: nat, payload: seq<byte>)
    ensures FullBoxBytes(kind, version, flags, payload) == BoxBytes(kind, [VersionFlags(version, flags) + payload])
  {
    hide BE32;
    Singleton(VersionFlags(version, flags) + payload);
  }

  /** A full box read back: its body is version, flags and payload. */
  lemma FullBoxBack(d: seq<byte>, kind: seq<byte>, version: int, flags: nat, payload: seq<byte>, rest: seq<byte>)
    requires |kind| == 4 && d == FullBoxBytes(kind, version, flags, payload) + rest
    requires 12 + |payload| < 0x1_0000_0000
    ensures ReadBoxes(d) == match ReadBoxes(rest) case None => None
                            case Some(ns) => Some([Node(kind, VersionFlags(version, flags) + payload)] + ns)
  {
    hide FullBoxBytes, BoxBytes, ReadBoxes, VersionFlags;
    FullBoxIsBox(kind, version, flags, payload);
    var p := VersionFlags(version, flags) + payload;
    Singleton(p);
    BoxBack(d, kind, [p], rest);
  }

  lemma Singleton(p: seq<byte>)
    ensures TotalLength([p]) == |p| && Concat([p]) == p
  {
    assert [p] == [] + [p];
    ConcatSnoc([], p);
    TotalLengthSnoc([], p);
  }

  /** A full box whose payload is one 32-bit field. */
  lemma FieldBoxBack(version: int, flags: nat, v: int)
    ensures var body := VersionFlags(version, flags) + BE32(v); |body| == 8 && ReadBE32(body, 4) == U32(v)
  {
    hide BE32, ReadBE32, VersionFlags;
    var body := VersionFlags(version, flags) + BE32(v);
    assert body[4..8] == BE32(v);
    ReadBE32At(body, 4, v);
  }

  /** The values a row keeps: unsigned and signed 32-bit ones. */
  predicate RowFits(s: SampleEntry)
  {
    && 0 <= s.duration < 0x1_0000_0000 && 0 <= s.size < 0x1_0000_0000
    && (s.flags.Some? ==> 0 <= s.flags.value < 0x1_0000_0000)
    && (s.cto.Some? ==> -0x8000_0000 <= s.cto.value < 0x8000_0000)
  }

  /** A row as it is read back: a column missing from this row but present in another reads as 0. */
  function Row(s: SampleEntry, hasFlags: bool, hasCto: bool): SampleEntry
  {
    SampleEntry(s.duration, s.size, if hasFlags then Some(GetOr(s.flags, 0)) else None,
                if hasCto then Some(GetOr(s.cto, 0)) else None)
  }

  function Rows(samples: seq<SampleEntry>, hasFlags: bool, hasCto: bool): seq<SampleEntry>
  {
    if samples == [] then [] else [Row(samples[0], hasFlags, hasCto)] + Rows(samples[1..], hasFlags, hasCto)
  }

  lemma SignedBack(v: int)
    requires -0x8000_0000 <= v < 0x8000_0000
    ensures Signed32(U32(v)) == v
  {
  }

  lemma RowParts(s: SampleEntry, hasFlags: bool, hasCto: bool, rest: seq<byte>)
    requires RowFits(s)
    ensures var d := SampleBytes(s, hasFlags, hasCto) + rest;
            var ctoAt := if hasFlags then 12 else 8;
            var size := if hasCto then ctoAt + 4 else ctoAt;
            && size <= |d| && d[size..] == rest
            && ReadBE32(d, 0) == s.duration && ReadBE32(d, 4) == s.size
            && (hasFlags ==> ReadBE32(d, 8) == GetOr(s.flags, 0))
            && (hasCto ==> Signed32(ReadBE32(d, ctoAt)) == GetOr(s.cto, 0))
  {
    hide BE32, ReadBE32, Signed32;
    var d := SampleBytes(s, hasFlags, hasCto) + rest;
    assert d[0..4] == BE32(s.duration) && d[4..8] == BE32(s.size);
    ReadBE32At(d, 0, s.duration);
    ReadBE32At(d, 4, s.size);
    if hasFlags {
      assert d[8..12] == BE32(GetOr(s.flags, 0));
      ReadBE32At(d, 8, GetOr(s.flags, 0));
    }
    if hasCto {
      var ctoAt := if hasFlags then 12 else 8;
      assert d[ctoAt..ctoAt + 4] == BE32(GetOr(s.cto, 0));
      ReadBE32At(d, ctoAt, GetOr(s.cto, 0));
      SignedBack(GetOr(s.cto, 0));
    }
  }

  lemma {:induction false} RowsBack(samples: seq<SampleEntry>, hasFlags: bool, hasCto: bool)
    requires forall s :: s in samples ==> RowFits(s)
    ensures ReadRows(TableBytes(samples, hasFlags, hasCto), |samples|, hasFlags, hasCto)
         == Some(Rows(samples, hasFlags, hasCto))
  {
    hide SampleBytes, ReadBE32, Signed32, RowFits;
    if samples != [] {
      RowParts(samples[0], hasFlags, hasCto, TableBytes(samples[1..], hasFlags, hasCto));
      RowsBack(samples[1..], hasFlags, hasCto);
    }
  }

  lemma TrunFlagsBack(f: bool, c: bool)
    ensures var v := VersionFlags(if c then 1 else 0, TrunFlags(f, c));
            var b2: int, b3: int := v[2], v[3];
            var flags := b2 * 256 + b3;
            && flags % 2 == 1 && flags / 0x100 % 4 == 3 && (c ==> v[0] == 1)
            && (flags / 0x400 % 2 == 1 <==> f) && (flags / 0x800 % 2 == 1 <==> c)
  {
  }

  /** What the writer put into a `trun`, and the size of its box. */
  function TrunPayload(samples: seq<SampleEntry>, dataOffset: int): seq<byte>
  {
    BE32(|samples|) + BE32(dataOffset) + TableBytes(samples, HasFlags(samples), HasCto(samples))
  }

  function TrunBody(samples: seq<SampleEntry>, dataOffset: int): seq<byte>
  {
    VersionFlags(if HasCto(samples) then 1 else 0, TrunFlags(HasFlags(samples), HasCto(samples)))
    + TrunPayload(samples, dataOffset)
  }

  lemma TrunBodyParts(v: seq<byte>, n: int, x: int, table: seq<byte>)
    requires |v| == 4
    ensures var body := v + (BE32(n) + BE32(x) + table);
            && |body| >= 12 && body[0] == v[0] && body[2] == v[2] && body[3] == v[3]
            && ReadBE32(body, 4) == U32(n) && ReadBE32(body, 8) == U32(x) && body[12..] == table
  {
    hide BE32, ReadBE32, U32;
    var body := v + (BE32(n) + BE32(x) + table);
    assert body[4..8] == BE32(n) && body[8..12] == BE32(x);
    ReadBE32At(body, 4, n);
    ReadBE32At(body, 8, x);
  }

  lemma TrunBodyBack(samples: seq<SampleEntry>, dataOffset: int)
    requires |samples| < 0x1_0000_0000 && forall s :: s in samples ==> RowFits(s)
    ensures ReadTrun(TrunBody(samples, dataOffset))
         == Some((U32(dataOffset), Rows(samples, HasFlags(samples), HasCto(samples))))
  {
    hide BE32, ReadBE32, TrunFlags, VersionFlags, TableBytes, ReadRows, Rows, HasFlags, HasCto, RowFits;
    var f, c := HasFlags(samples), HasCto(samples);
    TrunFlagsBack(f, c);
    TrunBodyParts(VersionFlags(if c then 1 else 0, TrunFlags(f, c)), |samples|, dataOffset, TableBytes(samples, f, c));
    RowsBack(samples, f, c);
  }

  /** The bytes of a moof all told. */
  function MoofSize(o: MoofOptions): nat
  {
    64 + |TrunBytes(o.samples, 0)|
  }

  /** A header whose size and sample count fit their 32-bit fields. */
  predicate Sized(o: MoofOptions)
  {
    MoofSize(o) + 8 < 0x1_0000_0000 && |o.samples| < 0x1_0000_0000
  }

  /** The samples and sizes a fragment can express. */
  predicate Fits(o: MoofOptions)
  {
    Sized(o) && forall s :: s in o.samples ==> RowFits(s)
  }

  lemma TrunSize(samples: seq<SampleEntry>, x: int)
    ensures |TrunBytes(samples, x)| == |TrunBytes(samples, 0)| == 12 + |TrunPayload(samples, x)|
  {
  }

  lemma FieldBoxSize(kind: seq<byte>, flags: nat, v: int)
    requires |kind| == 4
    ensures |FullBoxBytes(kind, 0, flags, BE32(v))| == 16
  {
  }

  /** The parts of a moof, flat: three headers of known size around the `trun`. */
  lemma MoofLayout(o: MoofOptions, x: int)
    ensures var trun := TrunBytes(o.samples, x);
            MoofBytes(o, x) == (BE32(64 + |trun|) + Ascii("moof") + MfhdBytes(o.sequenceNumber)
              + BE32(40 + |trun|) + Ascii("traf") + TfhdBytes(o.trackId) + TfdtBytes(o.baseDecodeTime)) + trun
    ensures |MoofBytes(o, x)| == MoofSize(o)
  {
    var trun := TrunBytes(o.samples, x);
    TrunSize(o.samples, x);
    FieldBoxSize(Ascii("mfhd"), 0, o.sequenceNumber);
    FieldBoxSize(Ascii("tfhd"), 0x02_0000, o.trackId);
    FieldBoxSize(Ascii("tfdt"), 0, o.baseDecodeTime);
    hide BE32, TrunBytes, FullBoxBytes, Ascii;
    ThreeParts(TfhdBytes(o.trackId), TfdtBytes(o.baseDecodeTime), trun);
    TwoParts(MfhdBytes(o.sequenceNumber), TrafBytes(o, x));
  }

  lemma TwoParts(a: seq<byte>, b: seq<byte>)
    ensures Concat([a, b]) == a + b && TotalLength([a, b]) == |a| + |b|
  {
    assert [a, b][1..] == [b];
    Singleton(b);
  }

  lemma ThreeParts(a: seq<byte>, b: seq<byte>, c: seq<byte>)
    ensures Concat([a, b, c]) == a + b + c && TotalLength([a, b, c]) == |a| + |b| + |c|
  {
    assert [a, b, c][1..] == [b, c];
    TwoParts(b, c);
    assert a + (b + c) == a + b + c;
  }

  lemma TrunBoxBack(o: MoofOptions, x: int)
    requires Fits(o)
    ensures ReadBoxes(TrunBytes(o.samples, x)) == Some([Node(Ascii("trun"), TrunBody(o.samples, x))])
  {
    TrunSize(o.samples, x);
    hide BE32, TableBytes, FullBoxBytes, Ascii, VersionFlags, HasCto, HasFlags, TrunFlags, RowFits;
    var trun := TrunBytes(o.samples, x);
    var f, c := HasFlags(o.samples), HasCto(o.samples);
    assert trun + [] == trun;
    FullBoxBack(trun, Ascii("trun"), if c then 1 else 0, TrunFlags(f, c), TrunPayload(o.samples, x), []);
    EmptyBoxes();
    var n := Node(Ascii("trun"), TrunBody(o.samples, x));
    assert [n] + [] == [n];
  }

  lemma TrafBack(o: MoofOptions, x: int)
    requires Fits(o)
    ensures var trun := TrunBytes(o.samples, x);
            var body := TfhdBytes(o.trackId) + TfdtBytes(o.baseDecodeTime) + trun;
            ReadBoxes(body) == Some([Node(Ascii("tfhd"), VersionFlags(0, 0x02_0000) + BE32(o.trackId)),
                                     Node(Ascii("tfdt"), VersionFlags(0, 0) + BE32(o.baseDecodeTime)),
                                     Node(Ascii("trun"), TrunBody(o.samples, x))])
  {
    hide BE32, TrunBytes, TrunBody, FullBoxBytes, Ascii, VersionFlags, ReadBoxes;
    TrunBoxBack(o, x);
    var trun := TrunBytes(o.samples, x);
    var d2 := TfdtBytes(o.baseDecodeTime) + trun;
    FullBoxBack(d2, Ascii("tfdt"), 0, 0, BE32(o.baseDecodeTime), trun);
    var d1 := TfhdBytes(o.trackId) + d2;
    assert d1 == TfhdBytes(o.trackId) + TfdtBytes(o.baseDecodeTime) + trun;
    FullBoxBack(d1, Ascii("tfhd"), 0, 0x02_0000, BE32(o.trackId), d2);
    var n1 := Node(Ascii("tfhd"), VersionFlags(0, 0x02_0000) + BE32(o.trackId));
    var n2 := Node(Ascii("tfdt"), VersionFlags(0, 0) + BE32(o.baseDecodeTime));
    var n3 := Node(Ascii("trun"), TrunBody(o.samples, x));
    assert [n1] + ([n2] + [n3]) == [n1, n2, n3];
  }

  function FragmentOf(o: MoofOptions, x: int): Fragment
  {
    Fragment(U32(o.sequenceNumber), U32(o.trackId), U32(o.baseDecodeTime), U32(x),
             Rows(o.samples, HasFlags(o.samples), HasCto(o.samples)))
  }

  lemma FieldNode(version: int, flags: nat, v: int, kind: seq<byte>)
    ensures var n := Node(kind, VersionFlags(version, flags) + BE32(v));
            n.kind == kind && |n.body| == 8 && ReadBE32(n.body, 4) == U32(v) && n.body[..4] == VersionFlags(version, flags)
  {
    FieldBoxBack(version, flags, v);
  }

  lemma ReadTrafBack(o: MoofOptions, x: int, body: seq<byte>)
    requires Fits(o)
    requires body == TfhdBytes(o.trackId) + TfdtBytes(o.baseDecodeTime) + TrunBytes(o.samples, x)
    ensures ReadTraf(U32(o.sequenceNumber), body) == Some(FragmentOf(o, x))
  {
    hide BE32, ReadBE32, TrunBytes, TrunBody, VersionFlags, ReadBoxes, ReadTrun, FullBoxBytes, Rows, HasFlags, HasCto, RowFits;
    TrafBack(o, x);
    TrunBodyBack(o.samples, x);
    FieldNode(0, 0x02_0000, o.trackId, Ascii("tfhd"));
    FieldNode(0, 0, o.baseDecodeTime, Ascii("tfdt"));
    FlagsAre();
    var tfdt := VersionFlags(0, 0) + BE32(o.baseDecodeTime);
    assert tfdt[0] == tfdt[..4][0];
  }

  lemma FlagsAre()
    ensures VersionFlags(0, 0x02_0000) == [0, 2, 0, 0] && VersionFlags(0, 0) == [0, 0, 0, 0]
  {
  }

  /** A movie fragment read back says exactly what was written into it. */
  lemma MoofBack(o: MoofOptions, x: int)
    requires Fits(o)
    ensures ReadMoof(MfhdBytes(o.sequenceNumber) + TrafBytes(o, x)) == Some(FragmentOf(o, x))
  {
    hide BE32, ReadBE32, TrunBytes, VersionFlags, ReadBoxes, ReadTraf, FullBoxBytes, BoxBytes, FragmentOf, RowFits;
    var inner := TfhdBytes(o.trackId) + TfdtBytes(o.baseDecodeTime) + TrunBytes(o.samples, x);
    var parts := [TfhdBytes(o.trackId), TfdtBytes(o.baseDecodeTime), TrunBytes(o.samples, x)];
    ThreeParts(parts[0], parts[1], parts[2]);
    TrunSize(o.samples, x);
    FieldBoxSize(Ascii("tfhd"), 0x02_0000, o.trackId);
    FieldBoxSize(Ascii("tfdt"), 0, o.baseDecodeTime);
    var traf := TrafBytes(o, x);
    assert traf + [] == traf;
    BoxBack(traf, Ascii("traf"), parts, []);
    EmptyBoxes();
    var d := MfhdBytes(o.sequenceNumber) + traf;
    FullBoxBack(d, Ascii("mfhd"), 0, 0, BE32(o.sequenceNumber), traf);
    FieldNode(0, 0, o.sequenceNumber, Ascii("mfhd"));
    ReadTrafBack(o, x, inner);
  }

  lemma EmptyBoxes()
    ensures ReadBoxes([]) == Some([])
  {
  }

  // ------------------------------------------------------------------ the patch on a written fragment

  lemma HeadAt(d: seq<byte>, pos: nat, size: nat, kind: seq<byte>)
    requires |kind| == 4 && size < 0x1_0000_0000
    requires pos + 8 <= |d| && d[pos..pos + 8] == BE32(size) + kind
    ensures SizeAt(d, pos) == size && KindAt(d, pos) == kind
  {
    var h := d[pos..pos + 8];
    assert h[..4] == BE32(size);
    ReadBE32At(h, 0, size);
    hide BE32;
    assert d[pos] == h[0] && d[pos + 1] == h[1] && d[pos + 2] == h[2] && d[pos + 3] == h[3];
    assert d[pos + 4] == h[4] && d[pos + 5] == h[5] && d[pos + 6] == h[6] && d[pos + 7] == h[7];
    assert h[4] == kind[0] && h[5] == kind[1] && h[6] == kind[2] && h[7] == kind[3];
  }

  lemma Kinds()
    ensures Ascii("mfhd") != Ascii("traf") && Ascii("tfhd") != Ascii("trun") && Ascii("tfdt") != Ascii("trun")
  {
    assert Ascii("mfhd")[0] != Ascii("traf")[0];
    assert Ascii("tfhd")[1] != Ascii("trun")[1];
    assert Ascii("tfdt")[1] != Ascii("trun")[1];
  }

  lemma FullBoxHead(kind: seq<byte>, version: int, flags: nat, payload: seq<byte>)
    requires |kind| == 4
    ensures FullBoxBytes(kind, version, flags, payload)[..8] == BE32(12 + |payload|) + kind
  {
  }

  /** Six consecutive parts, by their offsets. */
  lemma SixParts(d: seq<byte>, a: seq<byte>, m: seq<byte>, h: seq<byte>, f: seq<byte>, t: seq<byte>, u: seq<byte>)
    requires |a| == 8 && |m| == 16 && |h| == 8 && |f| == 16 && |t| == 16 && |u| >= 8
    requires d == a + m + h + f + t + u
    ensures d[8..16] == m[..8] && d[24..32] == h && d[32..40] == f[..8] && d[48..56] == t[..8] && d[64..72] == u[..8]
  {
  }

  /** Where the boxes of a written fragment stand. */
  lemma MoofHeads(o: MoofOptions, x: int)
    requires Sized(o)
    ensures var d := MoofBytes(o, x); var t := |TrunBytes(o.samples, x)|;
            && SizeAt(d, 8) == 16 && KindAt(d, 8) == Ascii("mfhd")
            && SizeAt(d, 24) == 40 + t && KindAt(d, 24) == Ascii("traf")
            && SizeAt(d, 32) == 16 && KindAt(d, 32) == Ascii("tfhd")
            && SizeAt(d, 48) == 16 && KindAt(d, 48) == Ascii("tfdt")
            && KindAt(d, 64) == Ascii("trun")
            && |d| == 64 + t && t >= 12
  {
    MoofLayout(o, x);
    TrunSize(o.samples, x);
    TrunHead(o, x);
    hide BE32, FullBoxBytes, TrunBytes, Ascii, SizeAt, KindAt, MoofBytes;
    FieldHead(Ascii("mfhd"), 0, o.sequenceNumber);
    FieldHead(Ascii("tfhd"), 0x02_0000, o.trackId);
    FieldHead(Ascii("tfdt"), 0, o.baseDecodeTime);
    var d := MoofBytes(o, x);
    var u := TrunBytes(o.samples, x);
    var h := BE32(40 + |u|) + Ascii("traf");
    var head := BE32(64 + |u|) + Ascii("moof");
    FlatLayout(head, MfhdBytes(o.sequenceNumber), BE32(40 + |u|), Ascii("traf"), TfhdBytes(o.trackId),
               TfdtBytes(o.baseDecodeTime), u);
    SixParts(d, head, MfhdBytes(o.sequenceNumber), h, TfhdBytes(o.trackId), TfdtBytes(o.baseDecodeTime), u);
    HeadAt(d, 8, 16, Ascii("mfhd"));
    HeadAt(d, 24, 40 + |u|, Ascii("traf"));
    HeadAt(d, 32, 16, Ascii("tfhd"));
    HeadAt(d, 48, 16, Ascii("tfdt"));
    HeadAt(d, 64, |u|, Ascii("trun"));
  }

  lemma FieldHead(kind: seq<byte>, flags: nat, v: int)
    requires |kind| == 4
    ensures var b := FullBoxBytes(kind, 0, flags, BE32(v)); |b| == 16 && b[..8] == BE32(16) + kind
  {
    FieldBoxSize(kind, flags, v);
    FullBoxHead(kind, 0, flags, BE32(v));
  }

  lemma FlatLayout(head: seq<byte>, m: seq<byte>, size: seq<byte>, kind: seq<byte>, f: seq<byte>, t: seq<byte>, u: seq<byte>)
    ensures (head + m + size + kind + f + t) + u == head + m + (size + kind) + f + t + u
  {
    assert head + m + size + kind == head + m + (size + kind);
  }

  lemma TrunHead(o: MoofOptions, x: int)
    requires Sized(o)
    ensures var t := TrunBytes(o.samples, x); t[..8] == BE32(|t|) + Ascii("trun")
  {
    TrunSize(o.samples, x);
    hide BE32, Ascii, TrunFlags, TableBytes, HasFlags, HasCto;
    var f, c := HasFlags(o.samples), HasCto(o.samples);
    FullBoxHead(Ascii("trun"), if c then 1 else 0, TrunFlags(f, c), TrunPayload(o.samples, x));
  }

  /** The walk ends, and the `trun` it finds is the one the writer put there. */
  lemma TrunFound(o: MoofOptions, x: int)
    requires Sized(o)
    ensures WalkEnds(MoofBytes(o, x), 8) && FindTrun(MoofBytes(o, x), 8) == Some(64)
  {
    hide BE32, Ascii, SizeAt, KindAt, MoofBytes, TrunBytes;
    MoofHeads(o, x);
    Kinds();
    var d := MoofBytes(o, x);
    var end := 24 + SizeAt(d, 24);
    assert TrunIn(d, 64, end) == Some(64) && InnerEnds(d, 64, end);
    assert TrunIn(d, 48, end) == Some(64) && InnerEnds(d, 48, end);
    assert TrunIn(d, 32, end) == Some(64) && InnerEnds(d, 32, end);
    assert TrunOfBox(d, 24) == Some(64);
    assert FindTrun(d, 24) == Some(64) && WalkEnds(d, 24);
  }

  lemma TrunBytesSplice(samples: seq<SampleEntry>, x: int)
    ensures Splice(TrunBytes(samples, 0), 16, BE32(x)) == TrunBytes(samples, x)
  {
    hide BE32, TableBytes, TrunFlags, HasFlags, HasCto, Ascii;
  }

  /** Patching replaces the placeholder by the given offset and changes nothing else. */
  lemma PatchedMoof(o: MoofOptions, x: int)
    requires Sized(o)
    ensures WalkEnds(MoofBytes(o, 0), 8) && Patched(MoofBytes(o, 0), x) == MoofBytes(o, x)
  {
    TrunFound(o, 0);
    MoofLayout(o, 0);
    MoofLayout(o, x);
    TrunBytesSplice(o.samples, x);
    TrunSize(o.samples, x);
    FieldBoxSize(Ascii("mfhd"), 0, o.sequenceNumber);
    FieldBoxSize(Ascii("tfhd"), 0x02_0000, o.trackId);
    FieldBoxSize(Ascii("tfdt"), 0, o.baseDecodeTime);
    hide BE32, FullBoxBytes, TrunBytes, Ascii, MoofBytes, WalkEnds, FindTrun;
    var t0, t := TrunBytes(o.samples, 0), TrunBytes(o.samples, x);
    var head := BE32(64 + |t|) + Ascii("moof") + MfhdBytes(o.sequenceNumber)
      + BE32(40 + |t|) + Ascii("traf") + TfhdBytes(o.trackId) + TfdtBytes(o.baseDecodeTime);
    SpliceBehind(head, t0, 16, BE32(x));
  }

  lemma SpliceBehind(head: seq<byte>, d: seq<byte>, at: nat, bytes: seq<byte>)
    ensures Splice(head + d, |head| + at, bytes) == head + Splice(d, at, bytes)
  {
  }

  /** A fragment as the transmuxer emits it: header written, patched in place, then the data box. */
  method WriteFragment(o: MoofOptions, rawData: seq<byte>) returns (bytes: seq<byte>)
    requires Sized(o)
    ensures bytes == MoofBytes(o, MoofSize(o) + 8) + MdatBytes(rawData)
  {
    var moof := Moof(o);
    PatchedMoof(o, MoofSize(o) + 8);
    MoofLayout(o, 0);
    hide MoofBytes, Patched, WalkEnds, MdatBytes;
    var moofBox := new byte[|moof|](k requires 0 <= k < |moof| => moof[k]);
    assert moofBox[..] == moof;
    PatchDataOffset(moofBox, |moof|);
    var mdatBox := Mdat(rawData);
    bytes := moofBox[..] + mdatBox;
  }

  // ------------------------------------------------------------------ reading back a media segment

  /** One fragment to be written, with the bytes of each sample. */
  datatype Piece = Piece(o: MoofOptions, data: seq<seq<byte>>)
  {
    predicate Valid()
    {
      Fits(o) && SizesMatch(o.samples, data) && 8 + TotalLength(data) < 0x1_0000_0000
    }

    function Bytes(): seq<byte>
    {
      MoofBytes(o, MoofSize(o) + 8) + MdatBytes(Concat(data))
    }

    function Read(): Media
    {
      Media(FragmentOf(o, MoofSize(o) + 8), data)
    }
  }

  predicate SizesMatch(samples: seq<SampleEntry>, data: seq<seq<byte>>)
  {
    |samples| == |data| && forall k :: 0 <= k < |data| ==> samples[k].size == |data[k]|
  }

  function MediaBytes(ps: seq<Piece>): seq<byte>
  {
    if ps == [] then [] else ps[0].Bytes() + MediaBytes(ps[1..])
  }

  function MediaOf(ps: seq<Piece>): seq<Media>
  {
    if ps == [] then [] else [ps[0].Read()] + MediaOf(ps[1..])
  }

  /** Cutting by the sizes in the table gives back the samples. */
  lemma {:induction false} CutBack(d: seq<byte>, at: nat, samples: seq<SampleEntry>, data: seq<seq<byte>>, f: bool, c: bool)
    requires SizesMatch(samples, data)
    requires at <= |d| && d[at..] == Concat(data)
    ensures CutSamples(d, at, Rows(samples, f, c)) == Some(data)
    decreases |data|
  {
    if data != [] {
      var n := |data[0]|;
      assert d[at..][..n] == data[0] && d[at..][n..] == Concat(data[1..]);
      assert d[at..at + n] == d[at..][..n] && d[at + n..] == d[at..][n..];
      CutBack(d, at + n, samples[1..], data[1..], f, c);
      assert Rows(samples, f, c)[1..] == Rows(samples[1..], f, c);
      assert data == [data[0]] + data[1..];
    } else {
      assert Rows(samples, f, c) == [];
    }
  }

  /** The two boxes of a piece as they stand in the segment. */
  lemma PieceParts(p: Piece, rest: seq<byte>)
    requires p.Valid()
    ensures var d := p.Bytes() + rest; var m := MoofSize(p.o); var n := 8 + TotalLength(p.data);
            && 8 <= m && m + n <= |d| && m + n == |p.Bytes()|
            && ReadBE32(d, 0) == m && d[4..8] == Ascii("moof")
            && d[8..m] == MfhdBytes(p.o.sequenceNumber) + TrafBytes(p.o, m + 8)
            && ReadBE32(d, m) == n && d[m + 4..m + 8] == Ascii("mdat")
            && d[..m + n][m + 8..] == Concat(p.data) && d[m + n..] == rest
            && U32(m + 8) == m + 8
  {
    var m := MoofSize(p.o);
    var x := m + 8;
    var parts := [MfhdBytes(p.o.sequenceNumber), TrafBytes(p.o, x)];
    var data := Concat(p.data);
    MoofLayout(p.o, x);
    TotalLengthIsConcatLength(p.data);
    Singleton(data);
    TwoParts(parts[0], parts[1]);
    BoxSize(Ascii("moof"), parts);
    hide ReadBE32, BoxBytes, FullBoxBytes, TrafBytes, Ascii, TrunBytes, RowFits;
    var mdat := MdatBytes(data);
    var d := p.Bytes() + rest;
    assert d == BoxBytes(Ascii("moof"), parts) + (mdat + rest);
    BoxParts(d, Ascii("moof"), parts, mdat + rest);
    var e := mdat + rest;
    BoxParts(e, Ascii("mdat"), [data], rest);
    assert d[m..] == e;
    Behind(d, m, e, |mdat|);
  }

  lemma BoxSize(kind: seq<byte>, payloads: seq<seq<byte>>)
    requires |kind| == 4
    ensures |BoxBytes(kind, payloads)| == 8 + TotalLength(payloads)
  {
    TotalLengthIsConcatLength(payloads);
  }

  /** Reading at an offset is reading in the rest. */
  lemma Behind(d: seq<byte>, m: nat, e: seq<byte>, n: nat)
    requires m <= |d| && d[m..] == e && 8 <= n <= |e|
    ensures ReadBE32(d, m) == ReadBE32(e, 0) && d[m + 4..m + 8] == e[4..8]
    ensures d[..m + n][m + 8..] == e[8..n] && d[m + n..] == e[n..]
  {
    assert d[m] == e[0] && d[m + 1] == e[1] && d[m + 2] == e[2] && d[m + 3] == e[3];
    assert d[m + 4..m + 8] == d[m..][4..8];
    assert d[..m + n][m + 8..] == d[m..][8..n];
    assert d[m + n..] == d[m..][n..];
  }

  lemma PieceBack(p: Piece, rest: seq<byte>)
    requires p.Valid()
    ensures ReadMedia(p.Bytes() + rest) == match ReadMedia(rest) case None => None
                                           case Some(ms) => Some([p.Read()] + ms)
  {
    hide ReadBE32, BoxBytes, FullBoxBytes, TrafBytes, Ascii, ReadMoof, Fits, Piece.Bytes, MoofSize, Rows, HasFlags, HasCto, CutSamples;
    var m := MoofSize(p.o);
    var n := 8 + TotalLength(p.data);
    PieceParts(p, rest);
    MoofBack(p.o, m + 8);
    var d := p.Bytes() + rest;
    CutBack(d[..m + n], m + 8, p.o.samples, p.data, HasFlags(p.o.samples), HasCto(p.o.samples));
  }

  /** A media segment read back: every fragment, in order, with exactly its samples. */
  lemma {:induction false} MediaBack(ps: seq<Piece>)
    requires forall p :: p in ps ==> p.Valid()
    ensures ReadMedia(MediaBytes(ps)) == Some(MediaOf(ps))
  {
    hide Piece.Valid, Piece.Bytes, Piece.Read;
    if ps == [] {
      NoMedia();
    } else {
      PieceBack(ps[0], MediaBytes(ps[1..]));
      MediaBack(ps[1..]);
    }
  }

  lemma NoMedia()
    ensures ReadMedia([]) == Some([])
  {
  }
}
