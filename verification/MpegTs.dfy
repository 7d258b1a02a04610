/**
 MPEG transport stream packets (ISO/IEC 13818-1 sections 2.4.3.2 and 2.4.4.8): finding the
 program tables and collecting the payloads of each elementary stream.
 */
module MpegTs {
  import opened Bytes
  import opened Wrappers
  import Pes

  const TS_PACKET_SIZE := 188
  const TS_SYNC_BYTE: byte := 0x47

  /** A stream type is `undefined` when the table runs past the end of the data. */
  datatype PmtEntry = PmtEntry(pid: nat, streamType: Option<byte>)

  datatype DemuxedStream = DemuxedStream(streamType: Option<byte>, pid: nat, data: seq<seq<byte>>)

  /** A 13-bit PID: five bits of one byte and the whole next one. */
  function Pid13(d: seq<byte>, pos: nat): (p: nat)
    ensures p < 0x2000
  {
    var hi: int, lo: int := Num(d, pos), Num(d, pos + 1);
    hi % 32 * 256 + lo
  }

  /** A 12-bit length. */
  function Length12(d: seq<byte>, pos: nat): (l: nat)
    ensures l < 0x1000
  {
    var hi: int, lo: int := Num(d, pos), Num(d, pos + 1);
    hi % 16 * 256 + lo
  }

  function AdaptationFieldControl(d: seq<byte>, i: nat): nat
  {
    Num(d, i + 3) / 16 % 4
  }

  /** A packet that starts with the sync byte and carries a payload. */
  predicate HasPayload(d: seq<byte>, i: nat)
  {
    Is(d, i, TS_SYNC_BYTE) && AdaptationFieldControl(d, i) != 0 && AdaptationFieldControl(d, i) != 2
  }

  function GetPayloadOffset(d: seq<byte>, i: nat): nat
  {
    var length: int := Num(d, i + 4);
    if AdaptationFieldControl(d, i) >= 2 then i + 4 + 1 + length else i + 4
  }

  function ParsePat(d: seq<byte>, offset: nat): nat
  {
    var pointer: int := Num(d, offset);
    Pid13(d, offset + 1 + pointer + 8 + 2)
  }

  /** The entries from `pos` on, up to the checksum. */
  function PmtEntries(d: seq<byte>, pos: nat, sectionEnd: int): seq<PmtEntry>
    decreases sectionEnd - pos
  {
    if pos < sectionEnd - 4 then
      [PmtEntry(Pid13(d, pos + 1), if pos < |d| then Some(d[pos]) else None)]
      + PmtEntries(d, pos + 5 + Length12(d, pos + 3), sectionEnd)
    else []
  }

  function PmtAt(d: seq<byte>, offset: nat): seq<PmtEntry>
  {
    var pointer: int := Num(d, offset);
    var pos := offset + 1 + pointer + 1;
    PmtEntries(d, pos + 11 + Length12(d, pos + 9), pos + 2 + Length12(d, pos))
  }

  method ParsePmt(data: seq<byte>, offset: nat) returns (entries: seq<PmtEntry>)
    ensures entries == PmtAt(data, offset)
  {
    hide Pid13, Length12;
    var pointerField: int := Num(data, offset);
    var pos := offset + 1 + pointerField;
    pos := pos + 1;
    var sectionLength := Length12(data, pos);
    pos := pos + 2;
    var sectionEnd := pos + sectionLength;
    pos := pos + 5;
    pos := pos + 2;
    var programInfoLength := Length12(data, pos);
    pos := pos + 2 + programInfoLength;
    entries := [];
    while pos < sectionEnd - 4
      invariant entries + PmtEntries(data, pos, sectionEnd) == PmtAt(data, offset)
    {
      var streamType := if pos < |data| then Some(data[pos]) else None;
      var pid := Pid13(data, pos + 1);
      var esInfoLength := Length12(data, pos + 3);
      ghost var rest := PmtEntries(data, pos + 5 + esInfoLength, sectionEnd);
      assert (entries + [PmtEntry(pid, streamType)]) + rest == entries + ([PmtEntry(pid, streamType)] + rest);
      entries := entries + [PmtEntry(pid, streamType)];
      pos := pos + 5 + esInfoLength;
    }
  }

  // ------------------------------------------------------------------ the two passes

  /** What the first pass has found: -1 before any PAT. */
  datatype Tables = Tables(pmtPid: int, entries: seq<PmtEntry>)

  function TableStep(d: seq<byte>, i: nat, t: Tables): Tables
  {
    if !HasPayload(d, i) then t
    else if Pid13(d, i + 1) == 0 then t.(pmtPid := ParsePat(d, GetPayloadOffset(d, i)))
    else if Pid13(d, i + 1) == t.pmtPid && t.entries == [] then t.(entries := PmtAt(d, GetPayloadOffset(d, i)))
    else t
  }

  function TableScan(d: seq<byte>, i: nat, t: Tables): Tables
    decreases |d| - i
  {
    if i + TS_PACKET_SIZE > |d| then t else TableScan(d, i + TS_PACKET_SIZE, TableStep(d, i, t))
  }

  /** The payload of the packet at `i` when it belongs to `pid`. */
  function Chunk(d: seq<byte>, i: nat, pid: nat): seq<seq<byte>>
    requires i + TS_PACKET_SIZE <= |d|
  {
    var start := GetPayloadOffset(d, i);
    if HasPayload(d, i) && Pid13(d, i + 1) == pid && start < i + TS_PACKET_SIZE then [d[start..i + TS_PACKET_SIZE]]
    else []
  }

  function Chunks(d: seq<byte>, i: nat, pid: nat): seq<seq<byte>>
    decreases |d| - i
  {
    if i + TS_PACKET_SIZE > |d| then [] else Chunk(d, i, pid) + Chunks(d, i + TS_PACKET_SIZE, pid)
  }

  /** The PIDs of the table, each where it first appears. */
  function PidOrder(entries: seq<PmtEntry>): seq<nat>
  {
    if entries == [] then []
    else
      var n := |entries| - 1;
      var order := PidOrder(entries[..n]);
      if entries[n].pid in order then order else order + [entries[n].pid]
  }

  /** The stream type of a PID: the last entry counts. */
  function TypeOf(entries: seq<PmtEntry>, pid: nat): Option<byte>
  {
    if entries == [] then None
    else if entries[|entries| - 1].pid == pid then entries[|entries| - 1].streamType
    else TypeOf(entries[..|entries| - 1], pid)
  }

  function StreamsOf(order: seq<nat>, entries: seq<PmtEntry>, chunks: nat -> seq<seq<byte>>): seq<DemuxedStream>
  {
    if order == [] then []
    else (if chunks(order[0]) == [] then []
          else [DemuxedStream(TypeOf(entries, order[0]), order[0], chunks(order[0]))])
         + StreamsOf(order[1..], entries, chunks)
  }

  function Demux(d: seq<byte>): seq<DemuxedStream>
  {
    var entries := TableScan(d, 0, Tables(-1, [])).entries;
    StreamsOf(PidOrder(entries), entries, (pid: nat) => Chunks(d, 0, pid))
  }

  method FindTables(segment: seq<byte>) returns (pmtEntries: seq<PmtEntry>)
    ensures pmtEntries == TableScan(segment, 0, Tables(-1, [])).entries
  {
    hide HasPayload, Pid13, GetPayloadOffset, ParsePat, PmtAt;
    var pmtPid: int := -1;
    pmtEntries := [];
    var i := 0;
    while i + TS_PACKET_SIZE <= |segment|
      invariant TableScan(segment, i, Tables(pmtPid, pmtEntries)) == TableScan(segment, 0, Tables(-1, []))
    {
      if HasPayload(segment, i) {
        var pid := Pid13(segment, i + 1);
        var payloadStart := GetPayloadOffset(segment, i);
        if pid == 0 {
          pmtPid := ParsePat(segment, payloadStart);
        } else if pid == pmtPid && pmtEntries == [] {
          pmtEntries := ParsePmt(segment, payloadStart);
        }
      }
      i := i + TS_PACKET_SIZE;
    }
  }

  method InitBuffers(pmtEntries: seq<PmtEntry>)
    returns (order: seq<nat>, types: map<nat, Option<byte>>, buffers: map<nat, seq<seq<byte>>>)
    ensures order == PidOrder(pmtEntries)
    ensures forall pid :: pid in order ==> pid in types && pid in buffers && types[pid] == TypeOf(pmtEntries, pid)
    ensures forall pid :: pid in buffers ==> pid in order && buffers[pid] == []
  {
    order, types, buffers := [], map[], map[];
    for j := 0 to |pmtEntries|
      invariant order == PidOrder(pmtEntries[..j])
      invariant forall pid :: pid in order ==>
        pid in types && pid in buffers && types[pid] == TypeOf(pmtEntries[..j], pid)
      invariant forall pid :: pid in buffers ==> pid in order && buffers[pid] == []
    {
      var entry := pmtEntries[j];
      assert pmtEntries[..j + 1][..j] == pmtEntries[..j];
      types := types[entry.pid := entry.streamType];
      if entry.pid !in buffers { order := order + [entry.pid]; }
      buffers := buffers[entry.pid := []];
    }
    assert pmtEntries[..|pmtEntries|] == pmtEntries;
  }

  method CollectChunks(segment: seq<byte>, empty: map<nat, seq<seq<byte>>>) returns (buffers: map<nat, seq<seq<byte>>>)
    requires forall pid :: pid in empty ==> empty[pid] == []
    ensures buffers.Keys == empty.Keys
    ensures forall pid :: pid in buffers ==> buffers[pid] == Chunks(segment, 0, pid)
  {
    hide HasPayload, Pid13, GetPayloadOffset;
    buffers := empty;
    var i := 0;
    while i + TS_PACKET_SIZE <= |segment|
      invariant buffers.Keys == empty.Keys
      invariant forall pid :: pid in buffers ==> buffers[pid] + Chunks(segment, i, pid) == Chunks(segment, 0, pid)
    {
      ghost var before := buffers;
      ghost var at := i;
      if HasPayload(segment, i) && Pid13(segment, i + 1) in buffers {
        var pid := Pid13(segment, i + 1);
        var payloadStart := GetPayloadOffset(segment, i);
        var payloadEnd := i + TS_PACKET_SIZE;
        if payloadStart < payloadEnd {
          buffers := buffers[pid := buffers[pid] + [segment[payloadStart..payloadEnd]]];
        }
      }
      i := i + TS_PACKET_SIZE;
      forall pid | pid in buffers ensures buffers[pid] + Chunks(segment, i, pid) == Chunks(segment, 0, pid)
      {
        assert buffers[pid] == before[pid] + Chunk(segment, at, pid);
        Associate(before[pid], Chunk(segment, at, pid), Chunks(segment, i, pid));
      }
    }
  }

  lemma Associate<T>(a: seq<T>, b: seq<T>, c: seq<T>)
    ensures (a + b) + c == a + (b + c)
  {
  }

  method DemuxTsSegment(segment: seq<byte>) returns (streams: seq<DemuxedStream>)
    ensures streams == Demux(segment)
  {
    var pmtEntries := FindTables(segment);
    var order, types, empty := InitBuffers(pmtEntries);
    var buffers := CollectChunks(segment, empty);
    hide Chunks, TypeOf, PidOrder, TableScan;
    ghost var chunks := (pid: nat) => Chunks(segment, 0, pid);
    streams := [];
    for j := 0 to |order|
      invariant streams + StreamsOf(order[j..], pmtEntries, chunks) == StreamsOf(order, pmtEntries, chunks)
    {
      var pid := order[j];
      assert pid in order;
      assert order[j..][0] == pid && order[j..][1..] == order[j + 1..];
      ghost var rest := StreamsOf(order[j + 1..], pmtEntries, chunks);
      if buffers[pid] != [] {
        Associate(streams, [DemuxedStream(types[pid], pid, buffers[pid])], rest);
        streams := streams + [DemuxedStream(types[pid], pid, buffers[pid])];
      } else {
        assert [] + rest == rest;
      }
    }
  }

  // ------------------------------------------------------------------ packets as a multiplexer writes them

  /** A transport packet, or 188 bytes that are not one. `flags` and `scrambling` may hold anything. */
  datatype Packet =
    | Ts(pid: nat, flags: nat, scrambling: nat, counter: nat, adaptation: Option<seq<byte>>,
         hasPayload: bool, payload: seq<byte>)
    | Junk(bytes: seq<byte>)
  {
    function Control(): nat
      requires Ts?
    {
      (if adaptation.Some? then 2 else 0) + (if hasPayload then 1 else 0)
    }

    function Adaptation(): seq<byte>
      requires Ts?
    {
      match adaptation case None => [] case Some(a) => [|a| % 256] + a
    }

    predicate Valid()
    {
      match this
      case Ts(pid, flags, scrambling, counter, a, _, payload) =>
        && pid < 0x2000 && flags < 8 && scrambling < 4 && counter < 16
        && (a.Some? ==> |a.value| < 256)
        && 4 + |Adaptation()| + |payload| == 188
      case Junk(bytes) => |bytes| == 188 && bytes[0] != TS_SYNC_BYTE
    }

    function Header(): (h: seq<byte>)
      requires Ts? && Valid()
      ensures |h| == 4
    {
      [TS_SYNC_BYTE, flags * 32 + pid / 256, pid % 256, scrambling * 64 + Control() * 16 + counter]
    }

    function Bytes(): (b: seq<byte>)
      requires Valid()
      ensures |b| == 188
    {
      if Junk? then bytes else Header() + Adaptation() + payload
    }

    /** Whether the packet carries payload bytes for `p`. */
    predicate Carries(p: nat)
    {
      Ts? && hasPayload && pid == p
    }
  }

  ghost predicate AllValid(ps: seq<Packet>)
  {
    forall p :: p in ps ==> p.Valid()
  }

  /** The packets, one after the other, and an incomplete one at the end. */
  ghost function Segment(ps: seq<Packet>, tail: seq<byte>): seq<byte>
    requires AllValid(ps)
  {
    if ps == [] then tail else assert ps[0] in ps; ps[0].Bytes() + Segment(ps[1..], tail)
  }

  function PayloadsOf(ps: seq<Packet>, pid: nat): seq<seq<byte>>
  {
    if ps == [] then []
    else (if ps[0].Carries(pid) && ps[0].payload != [] then [ps[0].payload] else []) + PayloadsOf(ps[1..], pid)
  }

  /** The fields of a packet as they stand in the segment. */
  lemma PacketParts(d: seq<byte>, i: nat, p: Packet, rest: seq<byte>)
    requires p.Valid() && i <= |d| && d[i..] == p.Bytes() + rest
    ensures i + 188 <= |d| && d[i + 188..] == rest
    ensures HasPayload(d, i) <==> p.Ts? && p.hasPayload
    ensures p.Ts? ==> Pid13(d, i + 1) == p.pid
    ensures p.Ts? ==> GetPayloadOffset(d, i) == i + 188 - |p.payload|
    ensures p.Ts? ==> d[i + 188 - |p.payload|..i + 188] == p.payload
  {
    var b := p.Bytes();
    Pes.Drop(d, i, b, rest);
    assert forall k {:trigger b[k]} :: 0 <= k < 188 ==> d[i..i + 188][k] == b[k];
    assert d[i] == b[0] && d[i + 1] == b[1] && d[i + 2] == b[2] && d[i + 3] == b[3] && d[i + 4] == b[4];
    if p.Ts? {
      assert b[0] == p.Header()[0] && b[1] == p.Header()[1] && b[2] == p.Header()[2] && b[3] == p.Header()[3];
      HeaderFields(p);
      if p.adaptation.Some? { assert b[4] == p.Adaptation()[0]; }
      var n := 188 - |p.payload|;
      assert b[n..] == p.payload;
      assert d[i + n..i + 188] == d[i..i + 188][n..];
    }
  }

  lemma HeaderFields(p: Packet)
    requires p.Ts? && p.Valid()
    ensures var h := p.Header();
            var h1: int, h2: int := h[1], h[2];
            h1 % 32 * 256 + h2 == p.pid && h[3] / 16 % 4 == p.Control()
  {
  }

  /** Collecting undoes multiplexing: any interleaving, any adaptation stuffing, junk and all. */
  lemma {:induction false} ChunksBack(d: seq<byte>, i: nat, ps: seq<Packet>, tail: seq<byte>, pid: nat)
    requires AllValid(ps) && |tail| < 188
    requires i <= |d| && d[i..] == Segment(ps, tail)
    ensures Chunks(d, i, pid) == PayloadsOf(ps, pid)
    decreases |ps|
  {
    hide HasPayload, Pid13, GetPayloadOffset, Packet.Valid, Packet.Bytes;
    if ps != [] {
      assert ps[0] in ps;
      PacketParts(d, i, ps[0], Segment(ps[1..], tail));
      ChunksBack(d, i + 188, ps[1..], tail, pid);
    }
  }

  // ------------------------------------------------------------------ the tables

  /** A PAT section behind its pointer: header bytes, a program number, the PMT's PID, and anything behind. */
  datatype PatSection = PatSection(pointer: seq<byte>, head: seq<byte>, reserved: nat, pmtPid: nat, rest: seq<byte>)
  {
    predicate Valid()
    {
      |pointer| < 256 && |head| == 10 && reserved < 8 && pmtPid < 0x2000
    }

    function Bytes(): seq<byte>
      requires Valid()
    {
      ([|pointer|] + pointer + head) + [reserved * 32 + pmtPid / 256, pmtPid % 256] + rest
    }
  }

  /** One stream of a PMT with its descriptors. */
  datatype EsInfo = EsInfo(streamType: byte, pid: nat, info: seq<byte>)
  {
    predicate Valid() { pid < 0x2000 && |info| < 0x1000 }

    function Bytes(): (b: seq<byte>)
      requires Valid()
      ensures |b| == 5 + |info|
    {
      [streamType, 0xE0 + pid / 256, pid % 256, 0xF0 + |info| / 256, |info| % 256] + info
    }

    function Entry(): PmtEntry { PmtEntry(pid, Some(streamType)) }
  }

  predicate InfosValid(es: seq<EsInfo>)
  {
    forall e :: e in es ==> e.Valid()
  }

  function InfoBytes(es: seq<EsInfo>): seq<byte>
    requires InfosValid(es)
  {
    if es == [] then [] else assert es[0] in es; es[0].Bytes() + InfoBytes(es[1..])
  }

  function Entries(es: seq<EsInfo>): seq<PmtEntry>
  {
    if es == [] then [] else [es[0].Entry()] + Entries(es[1..])
  }

  /** A PMT section behind its pointer, with program descriptors and a checksum. */
  datatype PmtSection = PmtSection(pointer: seq<byte>, tableId: byte, head: seq<byte>, program: seq<byte>,
                                   streams: seq<EsInfo>, checksum: seq<byte>, rest: seq<byte>)
  {
    predicate Valid()
    {
      |pointer| < 256 && |head| == 7 && |checksum| == 4 && InfosValid(streams) && Length() < 0x1000
    }

    function Length(): nat
      requires InfosValid(streams)
    {
      7 + 2 + |program| + |InfoBytes(streams)| + 4
    }

    function Front(): seq<byte>
      requires Valid()
    {
      ([|pointer|] + pointer + [tableId]) + [0xB0 + Length() / 256, Length() % 256] + head
      + [0xF0 + |program| / 256, |program| % 256] + program
    }

    function Bytes(): seq<byte>
      requires Valid()
    {
      Front() + InfoBytes(streams) + (checksum + rest)
    }
  }

  ghost predicate IsPat(payload: seq<byte>, pmtPid: nat)
  {
    exists s: PatSection :: s.Valid() && s.pmtPid == pmtPid && payload == s.Bytes()
  }

  ghost predicate IsPmt(payload: seq<byte>, es: seq<EsInfo>)
  {
    exists s: PmtSection :: s.Valid() && s.streams == es && payload == s.Bytes()
  }

  /** Bytes of a slice, by index. */
  lemma SliceAt<T>(d: seq<T>, o: nat, s: seq<T>, k: nat)
    requires o + |s| <= |d| && d[o..o + |s|] == s && k < |s|
    ensures d[o + k] == s[k]
  {
    assert d[o..o + |s|][k] == d[o + k];
  }

  lemma Within<T>(d: seq<T>, o: nat, a: seq<T>, b: seq<T>, c: seq<T>)
    requires o + |a| + |b| + |c| <= |d| && d[o..o + |a| + |b| + |c|] == a + b + c
    ensures d[o..o + |a|] == a && d[o + |a|..o + |a| + |b|] == b
  {
    var s := d[o..o + |a| + |b| + |c|];
    assert d[o..o + |a|] == s[..|a|] == a;
    assert s[|a|..] == b + c;
    assert d[o + |a|..o + |a| + |b|] == s[|a|..][..|b|] == b;
  }

  lemma PatBack(d: seq<byte>, o: nat, s: PatSection)
    requires s.Valid() && o + |s.Bytes()| <= |d| && d[o..o + |s.Bytes()|] == s.Bytes()
    ensures ParsePat(d, o) == s.pmtPid
  {
    hide Pid13;
    var b := s.Bytes();
    var k := 1 + |s.pointer| + 10;
    SliceAt(d, o, b, 0);
    SliceAt(d, o, b, k);
    SliceAt(d, o, b, k + 1);
    Pid13Back(d, o + k, s.reserved, s.pmtPid);
  }

  lemma Pid13Back(d: seq<byte>, pos: nat, reserved: nat, pid: nat)
    requires pos + 2 <= |d| && pid < 0x2000 && reserved < 8
    requires d[pos] == reserved * 32 + pid / 256 && d[pos + 1] == pid % 256
    ensures Pid13(d, pos) == pid
  {
  }

  lemma Length12Back(d: seq<byte>, pos: nat, hi: nat, l: nat)
    requires pos + 2 <= |d| && l < 0x1000 && hi < 16
    requires d[pos] == hi * 16 + l / 256 && d[pos + 1] == l % 256
    ensures Length12(d, pos) == l
  {
  }

  lemma EntryBack(d: seq<byte>, pos: nat, e: EsInfo)
    requires e.Valid() && pos + |e.Bytes()| <= |d| && d[pos..pos + |e.Bytes()|] == e.Bytes()
    ensures d[pos] == e.streamType && Pid13(d, pos + 1) == e.pid && Length12(d, pos + 3) == |e.info|
  {
    var b := e.Bytes();
    SliceAt(d, pos, b, 0);
    SliceAt(d, pos, b, 1);
    SliceAt(d, pos, b, 2);
    SliceAt(d, pos, b, 3);
    SliceAt(d, pos, b, 4);
    Length12Back(d, pos + 3, 15, |e.info|);
  }

  /** The entry loop reads back every entry and stops at the checksum. */
  lemma {:induction false} EntriesBack(d: seq<byte>, pos: nat, es: seq<EsInfo>)
    requires InfosValid(es)
    requires pos + |InfoBytes(es)| <= |d| && d[pos..pos + |InfoBytes(es)|] == InfoBytes(es)
    ensures PmtEntries(d, pos, pos + |InfoBytes(es)| + 4) == Entries(es)
    decreases |es|
  {
    hide Pid13, Length12, EsInfo.Bytes, EsInfo.Valid;
    if es != [] {
      assert es[0] in es;
      var e, rest := es[0], InfoBytes(es[1..]);
      var b := e.Bytes();
      assert InfoBytes(es) == b + rest + [];
      Within(d, pos, b, rest, []);
      EntryBack(d, pos, e);
      EntriesBack(d, pos + |b|, es[1..]);
    }
  }

  lemma PmtFront(d: seq<byte>, o: nat, s: PmtSection)
    requires s.Valid() && o + |s.Front()| <= |d| && d[o..o + |s.Front()|] == s.Front()
    ensures var pos := o + 1 + |s.pointer| + 1;
            && d[o] == |s.pointer| && Length12(d, pos) == s.Length() && Length12(d, pos + 9) == |s.program|
  {
    hide InfoBytes, InfosValid;
    var f := s.Front();
    var k := 1 + |s.pointer| + 1;
    SliceAt(d, o, f, 0);
    SliceAt(d, o, f, k);
    SliceAt(d, o, f, k + 1);
    SliceAt(d, o, f, k + 9);
    SliceAt(d, o, f, k + 10);
    Length12Back(d, o + k, 11, s.Length());
    Length12Back(d, o + k + 9, 15, |s.program|);
  }

  lemma PmtBack(d: seq<byte>, o: nat, s: PmtSection)
    requires s.Valid() && o + |s.Bytes()| <= |d| && d[o..o + |s.Bytes()|] == s.Bytes()
    ensures PmtAt(d, o) == Entries(s.streams)
  {
    hide InfoBytes, InfosValid, PmtEntries, Length12;
    Within(d, o, s.Front(), InfoBytes(s.streams), s.checksum + s.rest);
    PmtFront(d, o, s);
    EntriesBack(d, o + |s.Front()|, s.streams);
  }

  // ------------------------------------------------------------------ the whole segment

  /** Every packet of PID 0 is a PAT naming `pmtPid`, and every packet of that PID is the PMT of `es`. */
  ghost predicate TablesAre(ps: seq<Packet>, pmtPid: nat, es: seq<EsInfo>)
  {
    && pmtPid != 0
    && (forall p :: p in ps && p.Carries(0) ==> IsPat(p.payload, pmtPid))
    && (forall p :: p in ps && p.Carries(pmtPid) ==> IsPmt(p.payload, es))
  }

  /** What the first pass knows between two packets, when the tables are `pmtPid` and `es`. */
  ghost predicate Knows(t: Tables, pmtPid: nat, es: seq<EsInfo>, patSeen: bool, pmtSeen: bool)
  {
    && t.pmtPid == (if patSeen then pmtPid else -1)
    && t.entries == (if pmtSeen then Entries(es) else [])
  }

  lemma PatPayloadBack(d: seq<byte>, o: nat, payload: seq<byte>, pmtPid: nat)
    requires IsPat(payload, pmtPid) && o + |payload| <= |d| && d[o..o + |payload|] == payload
    ensures ParsePat(d, o) == pmtPid
  {
    var s: PatSection :| s.Valid() && s.pmtPid == pmtPid && payload == s.Bytes();
    PatBack(d, o, s);
  }

  lemma PmtPayloadBack(d: seq<byte>, o: nat, payload: seq<byte>, es: seq<EsInfo>)
    requires IsPmt(payload, es) && o + |payload| <= |d| && d[o..o + |payload|] == payload
    ensures PmtAt(d, o) == Entries(es)
  {
    var s: PmtSection :| s.Valid() && s.streams == es && payload == s.Bytes();
    PmtBack(d, o, s);
  }

  /** One packet seen by the first pass. */
  lemma TableStepBack(d: seq<byte>, i: nat, p: Packet, rest: seq<byte>, t: Tables, pmtPid: nat, es: seq<EsInfo>,
                      patSeen: bool, pmtSeen: bool)
    requires p.Valid() && i <= |d| && d[i..] == p.Bytes() + rest
    requires pmtPid != 0
    requires p.Carries(0) ==> IsPat(p.payload, pmtPid)
    requires p.Carries(pmtPid) ==> IsPmt(p.payload, es)
    requires Knows(t, pmtPid, es, patSeen, pmtSeen)
    ensures Knows(TableStep(d, i, t), pmtPid, es, patSeen || p.Carries(0), pmtSeen || (patSeen && p.Carries(pmtPid)))
  {
    hide HasPayload, Pid13, GetPayloadOffset, Packet.Valid, Packet.Bytes, PmtAt, ParsePat, IsPat, IsPmt;
    PacketParts(d, i, p, rest);
    if p.Carries(0) {
      PatPayloadBack(d, i + 188 - |p.payload|, p.payload, pmtPid);
    } else if p.Carries(pmtPid) {
      PmtPayloadBack(d, i + 188 - |p.payload|, p.payload, es);
    }
  }

  lemma {:induction false} TableScanBack(d: seq<byte>, i: nat, ps: seq<Packet>, tail: seq<byte>, t: Tables,
                                         pmtPid: nat, es: seq<EsInfo>, patSeen: bool, pmtSeen: bool)
    requires AllValid(ps) && |tail| < 188 && i <= |d| && d[i..] == Segment(ps, tail)
    requires TablesAre(ps, pmtPid, es)
    requires Knows(t, pmtPid, es, patSeen, pmtSeen)
    ensures TableScan(d, i, t).entries == (if pmtSeen || PmtFollows(ps, pmtPid, patSeen) then Entries(es) else [])
    decreases |ps|
  {
    if ps != [] {
      assert ps[0] in ps;
      var p, rest := ps[0], Segment(ps[1..], tail);
      TableStepBack(d, i, p, rest, t, pmtPid, es, patSeen, pmtSeen);
      PacketParts(d, i, p, rest);
      hide HasPayload, Pid13, GetPayloadOffset, Packet.Valid, Packet.Bytes, TableStep, Packet.Carries, IsPat, IsPmt;
      TableScanBack(d, i + 188, ps[1..], tail, TableStep(d, i, t), pmtPid, es,
                    patSeen || p.Carries(0), pmtSeen || (patSeen && p.Carries(pmtPid)));
    }
  }

  /** A packet of the PMT's PID follows a PAT. */
  predicate PmtFollows(ps: seq<Packet>, pmtPid: nat, patSeen: bool)
  {
    ps != [] && ((patSeen && ps[0].Carries(pmtPid)) || PmtFollows(ps[1..], pmtPid, patSeen || ps[0].Carries(0)))
  }

  /** The streams a segment carries, by the packets it was made from. */
  ghost function StreamsIn(ps: seq<Packet>, es: seq<EsInfo>): seq<DemuxedStream>
  {
    StreamsOf(PidOrder(Entries(es)), Entries(es), (pid: nat) => PayloadsOf(ps, pid))
  }

  lemma {:induction false} StreamsOfSame(order: seq<nat>, entries: seq<PmtEntry>, f: nat -> seq<seq<byte>>, g: nat -> seq<seq<byte>>)
    requires forall pid: nat :: f(pid) == g(pid)
    ensures StreamsOf(order, entries, f) == StreamsOf(order, entries, g)
  {
    if order != [] { StreamsOfSame(order[1..], entries, f, g); }
  }

  /** Demuxing undoes multiplexing, for any interleaving of PIDs, stuffing and junk: the streams the
      program table names come back in table order, each with its payloads in order. Without a PMT
      behind a PAT there are none. */
  lemma DemuxBack(ps: seq<Packet>, tail: seq<byte>, pmtPid: nat, es: seq<EsInfo>)
    requires AllValid(ps) && |tail| < 188 && TablesAre(ps, pmtPid, es)
    ensures Demux(Segment(ps, tail)) == if PmtFollows(ps, pmtPid, false) then StreamsIn(ps, es) else []
  {
    var d := Segment(ps, tail);
    assert d[0..] == d;
    TableScanBack(d, 0, ps, tail, Tables(-1, []), pmtPid, es, false, false);
    forall pid: nat ensures Chunks(d, 0, pid) == PayloadsOf(ps, pid)
    {
      ChunksBack(d, 0, ps, tail, pid);
    }
    if PmtFollows(ps, pmtPid, false) {
      StreamsOfSame(PidOrder(Entries(es)), Entries(es), (pid: nat) => Chunks(d, 0, pid), (pid: nat) => PayloadsOf(ps, pid));
    }
  }

  /** The first demuxed stream of a type, as the transmuxer picks it. */
  function FirstOfType(streams: seq<DemuxedStream>, streamType: byte): Option<DemuxedStream>
  {
    if streams == [] then None
    else if streams[0].streamType == Some(streamType) then Some(streams[0])
    else FirstOfType(streams[1..], streamType)
  }

  predicate DistinctPids(es: seq<EsInfo>)
  {
    forall i, j :: 0 <= i < j < |es| ==> es[i].pid != es[j].pid
  }

  /** One stream for every entry of the table whose PID has payload, in the order of the table. */
  function TableStreams(ps: seq<Packet>, es: seq<EsInfo>): seq<DemuxedStream>
  {
    if es == [] then []
    else
      var data := PayloadsOf(ps, es[0].pid);
      (if data == [] then [] else [DemuxedStream(Some(es[0].streamType), es[0].pid, data)]) + TableStreams(ps, es[1..])
  }

  lemma {:induction false} EntriesAt(es: seq<EsInfo>)
    ensures |Entries(es)| == |es| && forall i :: 0 <= i < |es| ==> Entries(es)[i] == PmtEntry(es[i].pid, Some(es[i].streamType))
  {
    if es != [] { EntriesAt(es[1..]); }
  }

  lemma {:induction false} OrderIs(entries: seq<PmtEntry>)
    requires forall i, j :: 0 <= i < j < |entries| ==> entries[i].pid != entries[j].pid
    ensures |PidOrder(entries)| == |entries| && forall i :: 0 <= i < |entries| ==> PidOrder(entries)[i] == entries[i].pid
  {
    if entries != [] { OrderIs(entries[..|entries| - 1]); }
  }

  lemma {:induction false} TypeIs(entries: seq<PmtEntry>, i: nat)
    requires forall i, j :: 0 <= i < j < |entries| ==> entries[i].pid != entries[j].pid
    requires i < |entries|
    ensures TypeOf(entries, entries[i].pid) == entries[i].streamType
    decreases |entries|
  {
    if i < |entries| - 1 { TypeIs(entries[..|entries| - 1], i); }
  }

  lemma {:induction false} StreamsFrom(ps: seq<Packet>, es: seq<EsInfo>, order: seq<nat>, k: nat)
    requires DistinctPids(es) && k <= |es| == |order| && forall i :: 0 <= i < |es| ==> order[i] == es[i].pid
    ensures StreamsOf(order[k..], Entries(es), (pid: nat) => PayloadsOf(ps, pid)) == TableStreams(ps, es[k..])
    decreases |es| - k
  {
    if k < |es| {
      StreamsFrom(ps, es, order, k + 1);
      EntriesAt(es);
      TypeIs(Entries(es), k);
      assert order[k..][0] == es[k].pid && order[k..][1..] == order[k + 1..] && es[k..][0] == es[k] && es[k..][1..] == es[k + 1..];
    }
  }

  /** When no PID stands in the table twice, there is a stream for every entry with payload, in the order of the table. */
  lemma StreamsInTable(ps: seq<Packet>, es: seq<EsInfo>)
    requires DistinctPids(es)
    ensures StreamsIn(ps, es) == TableStreams(ps, es)
  {
    EntriesAt(es);
    OrderIs(Entries(es));
    var order := PidOrder(Entries(es));
    StreamsFrom(ps, es, order, 0);
    assert order[0..] == order && es[0..] == es;
  }

  /** And the one that is picked for a type is that of the first such entry. */
  lemma {:induction false} FirstPicked(ps: seq<Packet>, es: seq<EsInfo>, k: nat)
    requires k < |es| && PayloadsOf(ps, es[k].pid) != []
    requires forall i :: 0 <= i < k ==> es[i].streamType != es[k].streamType || PayloadsOf(ps, es[i].pid) == []
    ensures FirstOfType(TableStreams(ps, es), es[k].streamType)
         == Some(DemuxedStream(Some(es[k].streamType), es[k].pid, PayloadsOf(ps, es[k].pid)))
    decreases k
  {
    hide PayloadsOf;
    if k > 0 {
      assert forall i :: 0 <= i < k - 1 ==> es[1..][i] == es[i + 1];
      FirstPicked(ps, es[1..], k - 1);
      var data := PayloadsOf(ps, es[0].pid);
      var first := DemuxedStream(Some(es[0].streamType), es[0].pid, data);
      var rest := TableStreams(ps, es[1..]);
      assert ([first] + rest)[1..] == rest && [] + rest == rest;
    }
  }

  /** From transport packets to elementary stream: whatever way the PES packets of a PID were cut
      into transport packets, the extracted elementary stream is their payloads, and the collected
      time stamps are theirs. */
  lemma ElementaryStreamRecovered(ps: seq<Packet>, tail: seq<byte>, pid: nat, pes: seq<Pes.Packet>)
    requires AllValid(ps) && |tail| < 188
    requires Concat(PayloadsOf(ps, pid)) == Pes.Stream(pes)
    requires forall p :: p in pes ==> p.Valid()
    ensures Pes.Elementary(Concat(Chunks(Segment(ps, tail), 0, pid)), 0) == Pes.Payloads(pes)
    ensures Pes.PtsList(Concat(Chunks(Segment(ps, tail), 0, pid)), 0) == Pes.Stamps(pes)
  {
    var d := Segment(ps, tail);
    assert d[0..] == d;
    ChunksBack(d, 0, ps, tail, pid);
    Pes.PayloadsRecovered(pes);
    Pes.StampsRecovered(pes);
  }
}
