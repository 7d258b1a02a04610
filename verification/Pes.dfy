/**
 PES packets (ISO/IEC 13818-1 section 2.4.3.6): extracting the elementary stream and the
 presentation time stamps from the concatenated packets of one PID.
 */
module Pes {
  import opened Bytes
  import opened Wrappers

  /** `00 00 01` and a stream id stand at `k`; stream ids start at 0xBC. */
  predicate PesAt(d: seq<byte>, k: nat)
  {
    k + 3 < |d| && d[k] == 0 && d[k + 1] == 0 && d[k + 2] == 1 && d[k + 3] >= 0xBC
  }

  /** The scan for the next packet header; the end of the data when there is none. */
  function NextPes(d: seq<byte>, k: nat): (n: nat)
    ensures n <= |d| && (k <= |d| ==> k <= n)
    decreases |d| - k
  {
    if k + 3 >= |d| then |d| else if PesAt(d, k) then k else NextPes(d, k + 1)
  }

  /** PES_packet_length, which is 0 when unknown. */
  function PacketLength(d: seq<byte>, off: nat): nat
    requires off + 6 <= |d|
  {
    var hi: int, lo: int := d[off + 4], d[off + 5];
    hi * 256 + lo
  }

  function PayloadStart(d: seq<byte>, off: nat): nat
    requires off + 9 <= |d|
  {
    off + 9 + d[off + 8]
  }

  /** Where the packet whose header stands at `off` ends. */
  function PacketEnd(d: seq<byte>, off: nat): (e: nat)
    requires off + 9 <= |d|
    ensures off < e <= |d|
  {
    var len := PacketLength(d, off);
    if len > 0 then if off + 6 + len < |d| then off + 6 + len else |d|
    else NextPes(d, PayloadStart(d, off))
  }

  function Slice(d: seq<byte>, a: nat, b: nat): seq<byte>
    requires b <= |d|
  {
    if a < b then d[a..b] else []
  }

  /** The payloads found from `off` on, joined. */
  function Elementary(d: seq<byte>, off: nat): seq<byte>
    decreases |d| - off
  {
    if off >= |d| then []
    else if off + 9 <= |d| && PesAt(d, off) then
      Slice(d, PayloadStart(d, off), PacketEnd(d, off)) + Elementary(d, PacketEnd(d, off))
    else Elementary(d, off + 1)
  }

  method FindNextPes(pesData: seq<byte>, payloadStart: nat) returns (nextPes: nat)
    ensures nextPes == NextPes(pesData, payloadStart)
  {
    nextPes := payloadStart;
    while nextPes + 3 < |pesData|
      invariant NextPes(pesData, nextPes) == NextPes(pesData, payloadStart)
    {
      if PesAt(pesData, nextPes) { break; }
      nextPes := nextPes + 1;
    }
    if nextPes + 3 >= |pesData| { nextPes := |pesData|; }
  }

  /** One turn of the loop at a header: where the packet ends. */
  method FindPacketEnd(pesData: seq<byte>, offset: nat) returns (pesEnd: nat)
    requires offset + 9 <= |pesData|
    ensures pesEnd == PacketEnd(pesData, offset)
  {
    var pesPacketLength := PacketLength(pesData, offset);
    if pesPacketLength > 0 {
      pesEnd := if offset + 6 + pesPacketLength < |pesData| then offset + 6 + pesPacketLength else |pesData|;
    } else {
      pesEnd := FindNextPes(pesData, PayloadStart(pesData, offset));
    }
  }

  method ExtractElementaryStream(pesData: seq<byte>) returns (es: seq<byte>)
    ensures es == Elementary(pesData, 0)
  {
    hide PacketEnd, PayloadStart, PesAt;
    var parts: seq<seq<byte>> := [];
    var offset := 0;
    while offset < |pesData|
      invariant Concat(parts) + Elementary(pesData, offset) == Elementary(pesData, 0)
    {
      if offset + 9 <= |pesData| && PesAt(pesData, offset) {
        var payloadStart := PayloadStart(pesData, offset);
        var pesEnd := FindPacketEnd(pesData, offset);
        Grow(parts, Slice(pesData, payloadStart, pesEnd), Elementary(pesData, pesEnd));
        if payloadStart < pesEnd {
          parts := parts + [pesData[payloadStart..pesEnd]];
        }
        offset := pesEnd;
      } else {
        offset := offset + 1;
      }
    }
    assert Concat(parts) + [] == Concat(parts);
    es := ConcatBuffers(parts);
  }

  lemma Grow<T>(parts: seq<seq<T>>, x: seq<T>, rest: seq<T>)
    ensures Concat(parts + [x]) + rest == Concat(parts) + (x + rest)
    ensures x == [] ==> Concat(parts) + rest == Concat(parts) + (x + rest)
  {
    ConcatSnoc(parts, x);
    if x == [] { assert x + rest == rest; }
  }

  // ------------------------------------------------------------------ time stamps

  /** The five-byte time stamp at `off + 9`, or -1 when the flag is not set. */
  function PtsAt(d: seq<byte>, off: nat): int
  {
    if !(Is(d, off, 0) && Is(d, off + 1, 0) && Is(d, off + 2, 1)) then -1
    else if Num(d, off + 7) < 0x80 then -1
    else
      var b9: int, b10: int, b11: int, b12: int, b13: int :=
        Num(d, off + 9), Num(d, off + 10), Num(d, off + 11), Num(d, off + 12), Num(d, off + 13);
      b9 / 2 % 8 * 2 * 0x2000_0000 + b10 * 0x40_0000 + b11 / 2 * 2 * 0x4000 + b12 * 0x80 + b13 / 2
  }

  /** Where the header scan goes on behind the header at `off`. */
  function ScanNext(d: seq<byte>, off: nat): (n: nat)
    requires off + 9 <= |d|
    ensures n > off
  {
    var len := PacketLength(d, off);
    if len > 0 then off + 6 + len else PayloadStart(d, off)
  }

  /** The time stamps the header scan collects from `off` on. */
  function PtsList(d: seq<byte>, off: nat): seq<int>
    decreases |d| - off
  {
    if off + 9 >= |d| then []
    else if PesAt(d, off) then
      (if PtsAt(d, off) >= 0 then [PtsAt(d, off)] else []) + PtsList(d, ScanNext(d, off))
    else PtsList(d, off + 1)
  }

  method CollectPts(pesData: seq<byte>) returns (videoPtsList: seq<int>)
    ensures videoPtsList == PtsList(pesData, 0)
  {
    hide PtsAt, PacketLength, PesAt;
    videoPtsList := [];
    var pesOff := 0;
    while pesOff + 9 < |pesData|
      invariant videoPtsList + PtsList(pesData, pesOff) == PtsList(pesData, 0)
      decreases |pesData| - pesOff
    {
      if PesAt(pesData, pesOff) {
        var pts := PtsAt(pesData, pesOff);
        ghost var rest := PtsList(pesData, ScanNext(pesData, pesOff));
        if pts >= 0 {
          assert (videoPtsList + [pts]) + rest == videoPtsList + ([pts] + rest);
          videoPtsList := videoPtsList + [pts];
        } else {
          assert [] + rest == rest;
        }
        pesOff := ScanNext(pesData, pesOff);
      } else {
        pesOff := pesOff + 1;
      }
    }
  }

  // ------------------------------------------------------------------ packets as an encoder writes them

  /** A PES packet. `known` says whether its length is written; `pts` stands at the start of the header data. */
  datatype Packet = Packet(streamId: byte, flags1: byte, flags2: byte, pts: Option<nat>, extra: seq<byte>,
                           payload: seq<byte>, known: bool)
  {
    function Header(): seq<byte>
    {
      (match pts case None => [] case Some(t) => PtsBytes(t)) + extra
    }

    /** What the header can express. */
    predicate Expressible()
    {
      && streamId >= 0xBC
      && (flags2 >= 0x80 <==> pts.Some?)
      && (pts.Some? ==> pts.value < 0x2_0000_0000)
      && |Header()| < 256
      && (known ==> 3 + |Header()| + |payload| < 0x1_0000)
    }

    /** A payload of unknown length must not hold what looks like a header. */
    ghost predicate Valid()
    {
      Expressible() && (!known ==> forall k: nat :: !PesAt(payload, k))
    }

    function Bytes(): seq<byte>
    {
      [0, 0, 1, streamId] + BE16(if known then 3 + |Header()| + |payload| else 0) +
      [flags1, flags2, |Header()| % 256] + Header() + payload
    }
  }

  /** The 33-bit time stamp with its marker bits. */
  function PtsBytes(t: nat): (s: seq<byte>)
    ensures |s| == 5
  {
    var a := t / 128;
    var b := a / 256;
    var c := b / 128;
    [0x21 + c / 256 % 8 * 2, c % 256, 1 + b % 128 * 2, a % 256, 1 + t % 128 * 2]
  }

  function Stream(ps: seq<Packet>): seq<byte>
  {
    if ps == [] then [] else ps[0].Bytes() + Stream(ps[1..])
  }

  function Payloads(ps: seq<Packet>): seq<byte>
  {
    if ps == [] then [] else ps[0].payload + Payloads(ps[1..])
  }

  function Stamps(ps: seq<Packet>): seq<int>
  {
    if ps == [] then []
    else (match ps[0].pts case None => [] case Some(t) => [t]) + Stamps(ps[1..])
  }

  lemma Drop<T>(d: seq<T>, off: nat, a: seq<T>, b: seq<T>)
    requires off <= |d| && d[off..] == a + b
    ensures off + |a| <= |d| && d[off..off + |a|] == a && d[off + |a|..] == b
  {
    assert d[off..][..|a|] == a && d[off..][|a|..] == b;
  }

  /** The fields of a packet as they stand in the data. */
  lemma PacketParts(d: seq<byte>, off: nat, p: Packet, rest: seq<byte>)
    requires p.Expressible() && off <= |d| && d[off..] == p.Bytes() + rest
    ensures var h := |p.Header()|; var e := off + 9 + h + |p.payload|;
            && off + 9 <= |d| && PesAt(d, off)
            && PacketLength(d, off) == (if p.known then 3 + h + |p.payload| else 0)
            && d[off + 7] == p.flags2
            && PayloadStart(d, off) == off + 9 + h
            && d[off + 9..off + 9 + h] == p.Header()
            && e == off + |p.Bytes()| <= |d| && d[off + 9 + h..e] == p.payload && d[e..] == rest
  {
    hide PesAt, PacketLength, PayloadStart, BE16, Packet.Header;
    var h := |p.Header()|;
    var len := if p.known then 3 + h + |p.payload| else 0;
    var front := [0, 0, 1, p.streamId] + BE16(len) + [p.flags1, p.flags2, h];
    assert p.Bytes() + rest == front + (p.Header() + (p.payload + rest));
    Drop(d, off, front, p.Header() + (p.payload + rest));
    Drop(d, off + 9, p.Header(), p.payload + rest);
    Drop(d, off + 9 + h, p.payload, rest);
    FrontParts(d, off, p.streamId, len, p.flags1, p.flags2, h);
  }

  lemma FrontParts(d: seq<byte>, off: nat, streamId: byte, len: nat, flags1: byte, flags2: byte, h: byte)
    requires off + 9 <= |d| && len < 0x1_0000 && streamId >= 0xBC
    requires d[off..off + 9] == [0, 0, 1, streamId] + BE16(len) + [flags1, flags2, h]
    ensures PesAt(d, off) && PacketLength(d, off) == len && d[off + 7] == flags2 && PayloadStart(d, off) == off + 9 + h
  {
    var f := d[off..off + 9];
    assert d[off] == f[0] && d[off + 1] == f[1] && d[off + 2] == f[2] && d[off + 3] == f[3] && d[off + 4] == f[4];
    assert d[off + 5] == f[5] && d[off + 7] == f[7] && d[off + 8] == f[8];
  }

  lemma ValidParts(d: seq<byte>, off: nat, p: Packet, rest: seq<byte>)
    requires p.Valid() && off <= |d| && d[off..] == p.Bytes() + rest
    ensures var h := |p.Header()|; var e := off + 9 + h + |p.payload|;
            && off + 9 <= |d| && PesAt(d, off)
            && PacketLength(d, off) == (if p.known then 3 + h + |p.payload| else 0)
            && d[off + 7] == p.flags2
            && PayloadStart(d, off) == off + 9 + h
            && d[off + 9..off + 9 + h] == p.Header()
            && e == off + |p.Bytes()| <= |d| && d[off + 9 + h..e] == p.payload && d[e..] == rest
  {
    hide Packet.Bytes, Packet.Header, PesAt, PacketLength, PayloadStart;
    PacketParts(d, off, p, rest);
  }

  lemma {:induction false} NextPesIs(d: seq<byte>, k: nat, n: nat)
    requires k <= n <= |d|
    requires forall j: nat :: k <= j < n ==> !PesAt(d, j)
    requires n == |d| || PesAt(d, n)
    ensures NextPes(d, k) == n
    decreases n - k
  {
    if k < n && k + 3 < |d| { NextPesIs(d, k + 1, n); }
  }

  /** No header begins inside a payload without one, even with the next header right behind it. */
  lemma NoHeaderInPayload(d: seq<byte>, s: nat, payload: seq<byte>)
    requires s + |payload| <= |d| && d[s..s + |payload|] == payload
    requires forall k: nat :: !PesAt(payload, k)
    requires s + |payload| == |d| || PesAt(d, s + |payload|)
    ensures NextPes(d, s) == s + |payload|
  {
    var e := s + |payload|;
    forall j: nat | s <= j < e ensures !PesAt(d, j)
    {
      if j + 3 < e {
        assert !PesAt(payload, j - s);
        assert d[j] == payload[j - s] && d[j + 1] == payload[j + 1 - s];
        assert d[j + 2] == payload[j + 2 - s] && d[j + 3] == payload[j + 3 - s];
      }
    }
    NextPesIs(d, s, e);
  }

  /** The packet found at a header ends where the encoder ended it. */
  lemma EndBack(d: seq<byte>, off: nat, p: Packet, rest: seq<Packet>)
    requires p.Valid() && (forall q :: q in rest ==> q.Valid())
    requires off <= |d| && d[off..] == p.Bytes() + Stream(rest)
    ensures off + 9 <= |d| && PacketEnd(d, off) == off + |p.Bytes()|
  {
    ValidParts(d, off, p, Stream(rest));
    var e := off + |p.Bytes()|;
    if !p.known {
      if rest != [] { ValidParts(d, e, rest[0], Stream(rest[1..])); }
      NoHeaderInPayload(d, PayloadStart(d, off), p.payload);
    }
  }

  /** What one turn of the extraction loop cuts out is the payload. */
  lemma PayloadBack(d: seq<byte>, off: nat, p: Packet, rest: seq<Packet>)
    requires p.Valid() && (forall q :: q in rest ==> q.Valid())
    requires off <= |d| && d[off..] == p.Bytes() + Stream(rest)
    ensures off + 9 <= |d| && PesAt(d, off) && off + |p.Bytes()| <= |d|
    ensures PacketEnd(d, off) == off + |p.Bytes()| && d[off + |p.Bytes()|..] == Stream(rest)
    ensures Slice(d, PayloadStart(d, off), PacketEnd(d, off)) == p.payload
  {
    EndBack(d, off, p, rest);
    hide PacketEnd, PayloadStart, PesAt, PacketLength, Packet.Valid, Packet.Expressible, Packet.Bytes, Packet.Header, Stream;
    ValidParts(d, off, p, Stream(rest));
  }

  /** Extraction undoes packetisation, for packets of known and unknown length in any mix. */
  lemma {:induction false} ElementaryBack(d: seq<byte>, off: nat, ps: seq<Packet>)
    requires forall p :: p in ps ==> p.Valid()
    requires off <= |d| && d[off..] == Stream(ps)
    ensures Elementary(d, off) == Payloads(ps)
    decreases |ps|
  {
    hide PacketEnd, PayloadStart, PesAt, Slice, Packet.Valid, Packet.Bytes;
    if ps != [] {
      var p, rest := ps[0], ps[1..];
      PayloadBack(d, off, p, rest);
      ElementaryBack(d, off + |p.Bytes()|, rest);
    }
  }

  lemma PayloadsRecovered(ps: seq<Packet>)
    requires forall p :: p in ps ==> p.Valid()
    ensures Elementary(Stream(ps), 0) == Payloads(ps)
  {
    assert Stream(ps)[0..] == Stream(ps);
    ElementaryBack(Stream(ps), 0, ps);
  }

  lemma PtsBytesBack(t: nat)
    requires t < 0x2_0000_0000
    ensures var s := PtsBytes(t);
            var b9: int, b10: int, b11: int, b12: int, b13: int := s[0], s[1], s[2], s[3], s[4];
            b9 / 2 % 8 * 2 * 0x2000_0000 + b10 * 0x40_0000 + b11 / 2 * 2 * 0x4000 + b12 * 0x80 + b13 / 2 == t
  {
    var a := t / 128;
    var b := a / 256;
    var c := b / 128;
    var e := c / 256;
    assert e < 8;
    assert (0x21 + e * 2) / 2 % 8 == e;
    assert (1 + b % 128 * 2) / 2 == b % 128;
    assert (1 + t % 128 * 2) / 2 == t % 128;
    Radix(t, a, b, c, e);
  }

  lemma Radix(t: nat, a: nat, b: nat, c: nat, e: nat)
    requires a == t / 128 && b == a / 256 && c == b / 128 && e == c / 256
    ensures t == e * 0x4000_0000 + c % 256 * 0x40_0000 + b % 128 * 0x8000 + a % 256 * 0x80 + t % 128
  {
  }

  /** The time stamp read at a packet is the one written there. */
  lemma PtsBack(d: seq<byte>, off: nat, p: Packet, rest: seq<byte>)
    requires p.Valid() && off <= |d| && d[off..] == p.Bytes() + rest
    ensures PtsAt(d, off) == match p.pts case None => -1 case Some(t) => t
  {
    ValidParts(d, off, p, rest);
    match p.pts
    case None =>
    case Some(t) =>
      var h := p.Header();
      assert forall k :: 0 <= k < 5 ==> d[off + 9..off + 9 + |h|][k] == PtsBytes(t)[k];
      PtsBytesBack(t);
  }

  /** Bytes without a header in them yield no time stamps. */
  lemma {:induction false} NoStampsBefore(d: seq<byte>, k: nat, n: nat)
    requires k <= n <= |d|
    requires forall j: nat :: k <= j < n ==> !PesAt(d, j)
    ensures PtsList(d, k) == PtsList(d, n)
    decreases n - k
  {
    if k < n { NoStampsBefore(d, k + 1, n); }
  }

  /** Between the place where the header scan goes on and the next packet there is no header. */
  lemma ScanReaches(d: seq<byte>, off: nat, p: Packet, rest: seq<Packet>)
    requires p.Valid() && (forall q :: q in rest ==> q.Valid())
    requires off <= |d| && d[off..] == p.Bytes() + Stream(rest)
    ensures off + 9 <= |d| && PtsList(d, ScanNext(d, off)) == PtsList(d, off + |p.Bytes()|)
  {
    hide Packet.Bytes, Packet.Valid, Packet.Header, PesAt, PtsList, Stream, PacketLength, NextPes;
    ValidParts(d, off, p, Stream(rest));
    EndBack(d, off, p, rest);
    var e := off + |p.Bytes()|;
    if !p.known {
      var s := PayloadStart(d, off);
      NextPesFinds(d, s);
      NoStampsBefore(d, s, e);
    }
  }

  lemma {:induction false} NextPesFinds(d: seq<byte>, k: nat)
    ensures forall j: nat :: k <= j < NextPes(d, k) ==> !PesAt(d, j)
    decreases |d| - k
  {
    if k + 3 < |d| && !PesAt(d, k) { NextPesFinds(d, k + 1); }
  }

  lemma {:induction false} StampsBack(d: seq<byte>, off: nat, ps: seq<Packet>)
    requires forall p :: p in ps ==> p.Valid()
    requires off <= |d| && d[off..] == Stream(ps)
    ensures PtsList(d, off) == Stamps(ps)
    decreases |ps|
  {
    hide PacketEnd, Slice, PtsAt, ScanNext, PacketLength, PesAt, PayloadStart, Packet.Valid, Packet.Bytes;
    if ps != [] {
      var p, rest := ps[0], ps[1..];
      PayloadBack(d, off, p, rest);
      PtsBack(d, off, p, Stream(rest));
      StampsBack(d, off + |p.Bytes()|, rest);
      ScanReaches(d, off, p, rest);
      if off + 9 == |d| { LastIsBare(d, off, p, rest); }
    }
  }

  /** A packet of nine bytes at the very end, which the scan does not look at, carries no time stamp. */
  lemma LastIsBare(d: seq<byte>, off: nat, p: Packet, rest: seq<Packet>)
    requires p.Valid() && off + 9 == |d| && d[off..] == p.Bytes() + Stream(rest)
    ensures rest == [] && p.pts.None?
  {
    StreamLength(rest);
  }

  lemma StreamLength(ps: seq<Packet>)
    ensures ps != [] ==> |Stream(ps)| >= 9
  {
  }

  /** The header scan finds exactly the time stamps of the packets that carry one, in order. */
  lemma StampsRecovered(ps: seq<Packet>)
    requires forall p :: p in ps ==> p.Valid()
    ensures PtsList(Stream(ps), 0) == Stamps(ps)
  {
    assert Stream(ps)[0..] == Stream(ps);
    StampsBack(Stream(ps), 0, ps);
  }

  // ------------------------------------------------------------------ data that begins or ends inside of a packet

  /** No packet header begins in these bytes. */
  ghost predicate Quiet(junk: seq<byte>)
  {
    forall k: nat :: !PesAt(junk, k)
  }

  lemma QuietAt(d: seq<byte>, junk: seq<byte>, rest: seq<byte>, k: nat)
    requires Quiet(junk) && d == junk + rest && k < |junk| && (rest == [] || (|rest| >= 3 && rest[0] == 0 && rest[1] == 0 && rest[2] == 1))
    ensures !PesAt(d, k)
  {
    assert !PesAt(junk, k);
    if k + 3 < |junk| {
      assert d[k] == junk[k] && d[k + 1] == junk[k + 1] && d[k + 2] == junk[k + 2] && d[k + 3] == junk[k + 3];
    }
  }

  lemma {:induction false} SkipsQuiet(d: seq<byte>, off: nat, n: nat)
    requires off <= n <= |d| && forall k: nat :: off <= k < n ==> !PesAt(d, k)
    ensures Elementary(d, off) == Elementary(d, n) && (PtsList(d, off) == PtsList(d, n))
    decreases n - off
  {
    hide PesAt;
    if off < n {
      SkipsQuiet(d, off + 1, n);
      if off + 9 >= |d| { NoStamps(d, n); }
    }
  }

  lemma NoStamps(d: seq<byte>, n: nat)
    requires n + 9 >= |d|
    ensures PtsList(d, n) == []
  {
  }

  /** Bytes in front of the first header, left over from a packet that began elsewhere, are passed over. */
  lemma LeadPassedOver(junk: seq<byte>, ps: seq<Packet>)
    requires Quiet(junk) && forall p :: p in ps ==> p.Valid()
    ensures Elementary(junk + Stream(ps), 0) == Payloads(ps)
    ensures PtsList(junk + Stream(ps), 0) == Stamps(ps)
  {
    hide Quiet, Elementary, PtsList, Packet.Valid, PesAt;
    var d := junk + Stream(ps);
    StreamStarts(ps);
    forall k: nat | 0 <= k < |junk| ensures !PesAt(d, k) { QuietAt(d, junk, Stream(ps), k); }
    SkipsQuiet(d, 0, |junk|);
    assert d[|junk|..] == Stream(ps);
    ElementaryBack(d, |junk|, ps);
    StampsBack(d, |junk|, ps);
  }

  lemma StreamStarts(ps: seq<Packet>)
    ensures ps == [] ==> Stream(ps) == []
    ensures ps != [] ==> |Stream(ps)| >= 3 && Stream(ps)[0] == 0 && Stream(ps)[1] == 0 && Stream(ps)[2] == 1
  {
    hide Packet.Header;
  }

  /** Of a packet that is cut off, what is there of its payload is kept. */
  lemma CutShort(p: Packet, n: nat)
    requires p.Valid() && p.known && 9 + |p.Header()| <= n <= |p.Bytes()|
    ensures Elementary(p.Bytes()[..n], 0) == p.payload[..n - 9 - |p.Header()|]
  {
    hide PesAt, PacketLength, PayloadStart, BE16, Packet.Header, Packet.Bytes;
    var b, h := p.Bytes(), |p.Header()|;
    var d := b[..n];
    assert b + [] == b && b[0..] == b + [];
    PacketParts(b, 0, p, []);
    SameHeader(b, d);
    assert d[9 + h..n] == b[9 + h..9 + h + |p.payload|][..n - 9 - h];
    assert Elementary(d, n) == [];
    assert d[9 + h..n] + [] == d[9 + h..n];
  }

  lemma SameHeader(b: seq<byte>, d: seq<byte>)
    requires |d| >= 9 && d <= b
    ensures PesAt(d, 0) == PesAt(b, 0) && PacketLength(d, 0) == PacketLength(b, 0) && PayloadStart(d, 0) == PayloadStart(b, 0)
  {
  }

  lemma {:induction false} ElementaryLength(d: seq<byte>, off: nat)
    ensures |Elementary(d, off)| <= if off <= |d| then |d| - off else 0
    decreases |d| - off
  {
    if off < |d| {
      if off + 9 <= |d| && PesAt(d, off) {
        ElementaryLength(d, PacketEnd(d, off));
      } else {
        ElementaryLength(d, off + 1);
      }
    }
  }

  /** What looks like a header inside a payload is taken for one, and its bytes are lost. */
  lemma HeaderInPayload(d: seq<byte>, s: nat, payload: seq<byte>, k: nat)
    requires s + |payload| == |d| && d[s..] == payload && PesAt(payload, k)
    ensures NextPes(d, s) < |d| && |Elementary(d, NextPes(d, s))| < |d| - NextPes(d, s)
  {
    assert d[s + k] == payload[k] && d[s + k + 1] == payload[k + 1];
    assert d[s + k + 2] == payload[k + 2] && d[s + k + 3] == payload[k + 3];
    assert PesAt(d, s + k);
    NextPesFinds(d, s);
    NextPesIsHeader(d, s);
    HeaderIsLost(d, NextPes(d, s));
  }

  /** The condition on payloads of unknown length is exact: one packet comes back if and only if
      its payload holds nothing that looks like a header. */
  lemma UnknownLengthIff(p: Packet)
    requires p.Expressible() && !p.known
    ensures Elementary(p.Bytes(), 0) == p.payload <==> p.Valid()
  {
    var d := p.Bytes();
    assert d + [] == d && d[0..] == d;
    PacketParts(d, 0, p, []);
    var s := PayloadStart(d, 0);
    assert d[s..] == p.payload;
    if p.Valid() {
      NoHeaderInPayload(d, s, p.payload);
    } else {
      hide Packet.Bytes, Packet.Header, NextPes, PacketLength, PayloadStart;
      var k: nat :| PesAt(p.payload, k);
      HeaderInPayload(d, s, p.payload, k);
    }
  }

  lemma {:induction false} NextPesIsHeader(d: seq<byte>, k: nat)
    ensures NextPes(d, k) < |d| ==> PesAt(d, NextPes(d, k))
    decreases |d| - k
  {
    if k + 3 < |d| { NextPesIsHeader(d, k + 1); }
  }

  /** The bytes of a header are never part of the output. */
  lemma HeaderIsLost(d: seq<byte>, off: nat)
    requires off < |d| && PesAt(d, off)
    ensures |Elementary(d, off)| < |d| - off
  {
    if off + 9 <= |d| {
      ElementaryLength(d, PacketEnd(d, off));
    } else {
      ElementaryLength(d, off + 1);
    }
  }

  // ------------------------------------------------------------------ streams of several packets

  /** The payloads found from `off` on, one by one. */
  function Cuts(d: seq<byte>, off: nat): seq<seq<byte>>
    decreases |d| - off
  {
    if off >= |d| then []
    else if off + 9 <= |d| && PesAt(d, off) then
      [Slice(d, PayloadStart(d, off), PacketEnd(d, off))] + Cuts(d, PacketEnd(d, off))
    else Cuts(d, off + 1)
  }

  lemma {:induction false} CutsJoined(d: seq<byte>, off: nat)
    ensures Concat(Cuts(d, off)) == Elementary(d, off)
    decreases |d| - off
  {
    hide PesAt, PayloadStart, PacketEnd, Slice;
    if off < |d| {
      if off + 9 <= |d| && PesAt(d, off) { CutsJoined(d, PacketEnd(d, off)); } else { CutsJoined(d, off + 1); }
    }
  }

  function PayloadList(ps: seq<Packet>): seq<seq<byte>>
  {
    if ps == [] then [] else [ps[0].payload] + PayloadList(ps[1..])
  }

  /** The packet at `off` is cut where the encoder ended it if it may be; otherwise it is cut short. */
  lemma CutOf(d: seq<byte>, off: nat, p: Packet, rest: seq<Packet>)
    requires p.Expressible() && (rest != [] ==> rest[0].Expressible())
    requires off <= |d| && d[off..] == p.Bytes() + Stream(rest)
    ensures off + 9 <= |d| && PesAt(d, off) && off + |p.Bytes()| <= |d| && d[off + |p.Bytes()|..] == Stream(rest)
    ensures var cut := Slice(d, PayloadStart(d, off), PacketEnd(d, off));
            if p.Valid() then PacketEnd(d, off) == off + |p.Bytes()| && cut == p.payload else |cut| < |p.payload|
  {
    hide Packet.Bytes, Packet.Header, PesAt, PacketLength, PayloadStart, Packet.Expressible, NextPes, BE16;
    PacketParts(d, off, p, Stream(rest));
    var s, e := PayloadStart(d, off), off + |p.Bytes()|;
    NextAt(d, e, rest);
    hide Stream;
    if !p.known {
      if p.Valid() {
        NoHeaderInPayload(d, s, p.payload);
      } else {
        var k: nat :| PesAt(p.payload, k);
        HeaderThere(d, s, p.payload, k);
        NextPesFinds(d, s);
        assert NextPes(d, s) <= s + k;
      }
    }
  }

  lemma NextAt(d: seq<byte>, e: nat, rest: seq<Packet>)
    requires e <= |d| && d[e..] == Stream(rest) && (rest != [] ==> rest[0].Expressible())
    ensures if rest == [] then e == |d| else PesAt(d, e)
  {
    hide Packet.Bytes, Packet.Header, PesAt, Packet.Expressible, PacketLength, PayloadStart;
    if rest != [] { PacketParts(d, e, rest[0], Stream(rest[1..])); }
  }

  lemma HeaderThere(d: seq<byte>, s: nat, payload: seq<byte>, k: nat)
    requires s + |payload| <= |d| && d[s..s + |payload|] == payload && PesAt(payload, k)
    ensures k < |payload| && PesAt(d, s + k)
  {
    assert d[s + k] == payload[k] && d[s + k + 1] == payload[k + 1];
    assert d[s + k + 2] == payload[k + 2] && d[s + k + 3] == payload[k + 3];
  }

  lemma {:induction false} CutsBackIff(d: seq<byte>, off: nat, ps: seq<Packet>)
    requires (forall p :: p in ps ==> p.Expressible()) && off <= |d| && d[off..] == Stream(ps)
    ensures Cuts(d, off) == PayloadList(ps) <==> forall p :: p in ps ==> p.Valid()
    decreases |ps|
  {
    hide PacketEnd, PayloadStart, PesAt, Slice, Packet.Valid, Packet.Bytes, Packet.Expressible;
    if ps != [] {
      var p, rest := ps[0], ps[1..];
      assert p in ps && forall q :: q in rest ==> q in ps;
      assert rest != [] ==> rest[0] in rest;
      CutOf(d, off, p, rest);
      if p.Valid() {
        CutsBackIff(d, off + |p.Bytes()|, rest);
        var cuts, list := Cuts(d, off), PayloadList(ps);
        assert cuts[1..] == Cuts(d, off + |p.Bytes()|) && list[1..] == PayloadList(rest);
        assert forall q :: q in ps <==> q == p || q in rest;
      } else {
        assert Cuts(d, off)[0] != PayloadList(ps)[0];
      }
    }
  }

  /** Any stream of packets, of known and of unknown length: every payload is cut out as it was put in exactly when no
      payload of unknown length holds what looks like a header. */
  lemma StreamCutIff(ps: seq<Packet>)
    requires forall p :: p in ps ==> p.Expressible()
    ensures Cuts(Stream(ps), 0) == PayloadList(ps) <==> forall p :: p in ps ==> p.Valid()
  {
    hide Packet.Valid, Packet.Expressible, Stream;
    assert Stream(ps)[0..] == Stream(ps);
    CutsBackIff(Stream(ps), 0, ps);
  }

  /** Nine bytes that look like a header of a long packet with nine bytes of header data. */
  const LONG_HEADER: seq<byte> := [0, 0, 1, 0xE0, 255, 255, 0, 0, 9]

  const CHANCE_FRONT: seq<byte> := [0, 0, 1, 0xE0, 0, 0, 0, 0, 0]
  const CHANCE_NEXT: seq<byte> := [0, 0, 1, 0xE0, 0, 13, 0, 0, 9]

  function Chance(): (d: seq<byte>)
    ensures |d| == 37
  {
    CHANCE_FRONT + (LONG_HEADER + (CHANCE_NEXT + (LONG_HEADER + [7])))
  }

  /** What the cuts make up together may be right by chance: the payload looks like a header, the header that follows
      is taken for its header data, and the header data of that one for the payload that was lost. */
  lemma JoinedByChance()
    ensures var ps := [Packet(0xE0, 0, 0, None, [], LONG_HEADER, false), Packet(0xE0, 0, 0, None, LONG_HEADER, [7], true)];
            && (forall p :: p in ps ==> p.Expressible()) && !ps[0].Valid()
            && Cuts(Stream(ps), 0) == [[], LONG_HEADER + [7]] && PayloadList(ps) == [LONG_HEADER, [7]]
            && Elementary(Stream(ps), 0) == Payloads(ps)
  {
    var p, q := Packet(0xE0, 0, 0, None, [], LONG_HEADER, false), Packet(0xE0, 0, 0, None, LONG_HEADER, [7], true);
    var ps := [p, q];
    assert PesAt(p.payload, 0);
    hide LONG_HEADER, Cuts, PesAt, Elementary, Concat, Chance;
    assert ps[1..] == [q] && [q][1..] == [];
    ChanceStream(p, q);
    ChanceCuts();
    CutsJoined(Chance(), 0);
    JoinTwo(LONG_HEADER + [7]);
    assert PayloadList([q]) == [[7]];
    assert Payloads([q]) == [7] + Payloads([]);
    assert Payloads([q]) == [7];
  }

  lemma JoinTwo(x: seq<byte>)
    ensures Concat([[], x]) == x
  {
    assert [[], x][1..] == [x] && [x][1..] == [];
    assert Concat([x]) == x + Concat([]);
    assert Concat([x]) == x;
    assert [] + x == x;
  }

  lemma ChanceStream(p: Packet, q: Packet)
    requires p == Packet(0xE0, 0, 0, None, [], LONG_HEADER, false) && q == Packet(0xE0, 0, 0, None, LONG_HEADER, [7], true)
    ensures p.Expressible() && q.Expressible() && Stream([p, q]) == Chance()
  {
    FirstBytes(p);
    SecondBytes(q);
    hide Packet.Bytes, CHANCE_FRONT, CHANCE_NEXT, LONG_HEADER, Packet.Expressible;
    assert [p, q][1..] == [q] && [q][1..] == [];
    assert Stream([q]) == q.Bytes() + Stream([]);
    assert Stream([q]) == q.Bytes();
    assert Stream([p, q]) == p.Bytes() + q.Bytes();
    Regroup(CHANCE_FRONT, LONG_HEADER, CHANCE_NEXT + (LONG_HEADER + [7]));
  }

  lemma Regroup(a: seq<byte>, b: seq<byte>, c: seq<byte>)
    ensures (a + b) + c == a + (b + c)
  {
  }

  lemma FirstBytes(p: Packet)
    requires p == Packet(0xE0, 0, 0, None, [], LONG_HEADER, false)
    ensures p.Expressible() && p.Bytes() == CHANCE_FRONT + LONG_HEADER
  {
    hide LONG_HEADER, BE16;
    assert p.Header() == [];
    FrontBytes(0, 0, CHANCE_FRONT);
  }

  lemma SecondBytes(q: Packet)
    requires q == Packet(0xE0, 0, 0, None, LONG_HEADER, [7], true)
    ensures q.Expressible() && q.Bytes() == CHANCE_NEXT + (LONG_HEADER + [7])
  {
    assert |LONG_HEADER| == 9;
    hide LONG_HEADER, BE16;
    assert q.Header() == LONG_HEADER;
    FrontBytes(13, 9, CHANCE_NEXT);
    Regroup(CHANCE_NEXT, LONG_HEADER, [7]);
  }

  lemma FrontBytes(len: nat, h: byte, front: seq<byte>)
    requires len < 256 && front == [0, 0, 1, 0xE0, 0, len, 0, 0, h]
    ensures [0, 0, 1, 0xE0] + BE16(len) + [0, 0, h] == front
  {
    assert BE16(len) == [0, len];
  }

  lemma ChanceHeads()
    ensures var d := Chance();
            && PesAt(d, 0) && PacketLength(d, 0) == 0 && PayloadStart(d, 0) == 9
            && PesAt(d, 9) && PacketLength(d, 9) == 65535 && PayloadStart(d, 9) == 27
            && d[27..] == LONG_HEADER + [7]
  {
    var d := Chance();
    assert forall k :: 0 <= k < 9 ==> d[k] == CHANCE_FRONT[k] && d[9 + k] == LONG_HEADER[k];
  }

  lemma ChanceCuts()
    ensures Cuts(Chance(), 0) == [[], LONG_HEADER + [7]]
  {
    var d := Chance();
    ChanceHeads();
    hide Chance, PesAt, PacketLength, PayloadStart, LONG_HEADER;
    assert NextPes(d, 9) == 9;
    assert PacketEnd(d, 0) == 9 && PacketEnd(d, 9) == 37;
    assert Cuts(d, 37) == [];
    assert Slice(d, 27, 37) == LONG_HEADER + [7];
    assert Slice(d, 9, 9) == [];
    assert Cuts(d, 9) == [LONG_HEADER + [7]];
  }
}
