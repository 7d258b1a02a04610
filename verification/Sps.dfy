/**
 The bit-level sequence parameter set parser (ITU-T H.264 sections 7.3.2.1.1 and 9.1),
 with the 32-bit arithmetic its shifts and masks have.
 */
module Sps {
  import opened Bytes
  import opened Wrappers

  type bit = b: int | 0 <= b < 2

  // ------------------------------------------------------------------ 32-bit arithmetic

  function Pow2(n: nat): (p: int)
    ensures p >= 1
  {
    if n == 0 then 1 else 2 * Pow2(n - 1)
  }

  /** A number as a bitwise operator sees it: modulo 2^32, signed. */
  function ToInt32(x: int): (r: int)
    ensures -0x8000_0000 <= r < 0x8000_0000
    ensures -0x8000_0000 <= x < 0x8000_0000 ==> r == x
  {
    (x + 0x8000_0000) % 0x1_0000_0000 - 0x8000_0000
  }

  /** `1 << n` for `n <= 32`; the shift count is taken modulo 32. */
  function Shl1(n: nat): int
    requires n <= 32
  {
    if n == 32 then 1 else if n == 31 then -0x8000_0000 else Pow2(n)
  }

  /** The remainder with the sign of the dividend. */
  function TruncMod(x: int, m: int): int
    requires m > 0
  {
    if x >= 0 then x % m else -((-x) % m)
  }

  // ------------------------------------------------------------------ the reader, as functions of the bit offset

  /** A value read and the offset behind it. */
  datatype Read = Read(v: int, next: nat)

  /** Bit `off` of the buffer, most significant bit first; bits past the end read as 0. */
  function BitAt(d: seq<byte>, off: nat): bit
  {
    Num(d, off / 8) / Pow2(7 - off % 8) % 2
  }

  /** `n` bits read by `val = (val << 1) | bit`: the shifted value is even, so the low bit is added. */
  function BitsAt(d: seq<byte>, off: nat, n: nat): (v: int)
    ensures -0x8000_0000 <= v < 0x8000_0000
  {
    if n == 0 then 0 else ToInt32(2 * BitsAt(d, off, n - 1) + BitAt(d, off + n - 1))
  }

  /** The zero bits counted before a 1, at most 32. */
  function LeadingZeros(d: seq<byte>, off: nat, count: nat): (z: nat)
    requires count <= 32
    ensures count <= z <= 32
    decreases 32 - count
  {
    if BitAt(d, off) == 0 && count < 32 then LeadingZeros(d, off + 1, count + 1) else count
  }

  function UeAt(d: seq<byte>, off: nat): (r: Read)
    ensures r.next > off
  {
    var z := LeadingZeros(d, off, 0);
    if z == 0 then Read(0, off + 1)
    else Read(Shl1(z) - 1 + BitsAt(d, off + z + 1, z), off + 2 * z + 1)
  }

  /** The signed value of a code number: `val & 1 ? (val + 1) >> 1 : -(val >> 1)`. */
  function Signed(val: int): int
  {
    if ToInt32(val) % 2 == 1 then ToInt32(val + 1) / 2 else -(ToInt32(val) / 2)
  }

  function SeAt(d: seq<byte>, off: nat): Read
  {
    var u := UeAt(d, off);
    Read(Signed(u.v), u.next)
  }

  /** The offset behind one scaling list. */
  function ScalingListAt(d: seq<byte>, off: nat, left: nat, lastScale: int, nextScale: int): nat
    decreases left
  {
    if left == 0 then off
    else if nextScale != 0 then
      var r := SeAt(d, off);
      var next := TruncMod(lastScale + r.v + 0x100, 0x100);
      ScalingListAt(d, r.next, left - 1, if next == 0 then lastScale else next, next)
    else ScalingListAt(d, off, left - 1, lastScale, nextScale)
  }

  function ListSize(i: nat): nat
  {
    if i < 6 then 16 else 64
  }

  /** The offset behind scaling lists `i` to `count - 1`. */
  function ScalingListsAt(d: seq<byte>, off: nat, i: nat, count: nat): nat
    requires i <= count
    decreases count - i
  {
    if i == count then off
    else if BitAt(d, off) != 0 then ScalingListsAt(d, ScalingListAt(d, off + 1, ListSize(i), 8, 8), i + 1, count)
    else ScalingListsAt(d, off + 1, i + 1, count)
  }

  const HIGH_PROFILE_IDCS: set<int> := {100, 110, 122, 244, 44, 83, 86, 118, 128, 138, 139, 134}

  /** The offset behind the high-profile extension. */
  function HighAt(d: seq<byte>, off: nat): nat
  {
    var chroma := UeAt(d, off);
    var o := if chroma.v == 3 then chroma.next + 1 else chroma.next;
    var o2 := UeAt(d, UeAt(d, o).next).next + 1;
    if BitAt(d, o2) != 0 then ScalingListsAt(d, o2 + 1, 0, if chroma.v != 3 then 8 else 12) else o2 + 1
  }

  /** The offset behind `n` signed codes. */
  function SesAt(d: seq<byte>, off: nat, n: int): nat
    decreases n
  {
    if n <= 0 then off else SesAt(d, SeAt(d, off).next, n - 1)
  }

  /** The offset behind the picture order count fields. */
  function PocAt(d: seq<byte>, off: nat): nat
  {
    var t := UeAt(d, off);
    if t.v == 0 then UeAt(d, t.next).next
    else if t.v == 1 then
      var frames := UeAt(d, SeAt(d, SeAt(d, t.next + 1).next).next);
      SesAt(d, frames.next, frames.v)
    else t.next
  }

  datatype SpsInfo = SpsInfo(width: int, height: int)

  /** What the parser returns for the NAL unit `sps`. */
  function Info(sps: seq<byte>): SpsInfo
  {
    var o := UeAt(sps, 32).next;
    var o1 := if BitsAt(sps, 8, 8) in HIGH_PROFILE_IDCS then HighAt(sps, o) else o;
    InfoBehindHigh(sps, o1)
  }

  function InfoBehindHigh(sps: seq<byte>, o: nat): SpsInfo
  {
    var o2 := PocAt(sps, UeAt(sps, o).next);
    var w := UeAt(sps, UeAt(sps, o2).next + 1);
    var h := UeAt(sps, w.next);
    SpsInfo((w.v + 1) * 16, (2 - BitAt(sps, h.next)) * (h.v + 1) * 16)
  }

  // ------------------------------------------------------------------ the parser

  class SpsReader {
    const sps: seq<byte>
    var bitOffset: nat

    constructor (sps: seq<byte>)
      ensures this.sps == sps && bitOffset == 8
    {
      this.sps := sps;
      bitOffset := 8;
    }

    method ReadBit() returns (b: bit)
      modifies this
      ensures b == BitAt(sps, old(bitOffset)) && bitOffset == old(bitOffset) + 1
    {
      var byteIndex := bitOffset / 8;
      var bitIndex := 7 - bitOffset % 8;
      b := Num(sps, byteIndex) / Pow2(bitIndex) % 2;
      bitOffset := bitOffset + 1;
    }

    method ReadBits(n: nat) returns (val: int)
      modifies this
      ensures val == BitsAt(sps, old(bitOffset), n) && bitOffset == old(bitOffset) + n
    {
      val := 0;
      for i := 0 to n
        invariant bitOffset == old(bitOffset) + i
        invariant val == BitsAt(sps, old(bitOffset), i)
      {
        var b := ReadBit();
        val := ToInt32(2 * val + b);
      }
    }

    method ReadUe() returns (v: int)
      modifies this
      ensures Read(v, bitOffset) == UeAt(sps, old(bitOffset))
    {
      hide BitAt, BitsAt, Shl1;
      var leadingZeros := 0;
      var b := ReadBit();
      while b == 0 && leadingZeros < 32
        invariant 0 <= leadingZeros <= 32
        invariant bitOffset == old(bitOffset) + leadingZeros + 1
        invariant b == BitAt(sps, bitOffset - 1)
        invariant LeadingZeros(sps, bitOffset - 1, leadingZeros) == LeadingZeros(sps, old(bitOffset), 0)
        decreases 32 - leadingZeros
      {
        leadingZeros := leadingZeros + 1;
        b := ReadBit();
      }
      if leadingZeros == 0 { return 0; }
      var rest := ReadBits(leadingZeros);
      v := Shl1(leadingZeros) - 1 + rest;
    }

    method ReadSe() returns (v: int)
      modifies this
      ensures Read(v, bitOffset) == SeAt(sps, old(bitOffset))
    {
      var val := ReadUe();
      v := Signed(val);
    }

    method SkipScalingList(size: nat)
      modifies this
      ensures bitOffset == ScalingListAt(sps, old(bitOffset), size, 8, 8)
    {
      hide SeAt, TruncMod;
      var lastScale, nextScale := 8, 8;
      for j := 0 to size
        invariant ScalingListAt(sps, bitOffset, size - j, lastScale, nextScale)
               == ScalingListAt(sps, old(bitOffset), size, 8, 8)
      {
        if nextScale != 0 {
          var delta := ReadSe();
          nextScale := TruncMod(lastScale + delta + 0x100, 0x100);
        }
        lastScale := if nextScale == 0 then lastScale else nextScale;
      }
    }

    method SkipHigh()
      modifies this
      ensures bitOffset == HighAt(sps, old(bitOffset))
    {
      hide UeAt, BitAt, ScalingListAt, ListSize;
      var chromaFormatIdc := ReadUe();
      if chromaFormatIdc == 3 { var _ := ReadBit(); }
      var _ := ReadUe();
      var _ := ReadUe();
      var _ := ReadBit();
      var present := ReadBit();
      if present != 0 {
        var count := if chromaFormatIdc != 3 then 8 else 12;
        ghost var o := bitOffset;
        for i := 0 to count
          invariant ScalingListsAt(sps, bitOffset, i, count) == ScalingListsAt(sps, o, 0, count)
        {
          var b := ReadBit();
          if b != 0 { SkipScalingList(ListSize(i)); }
        }
      }
    }

    method SkipPoc()
      modifies this
      ensures bitOffset == PocAt(sps, old(bitOffset))
    {
      hide UeAt, SeAt, BitAt;
      var picOrderCntType := ReadUe();
      if picOrderCntType == 0 {
        var _ := ReadUe();
      } else if picOrderCntType == 1 {
        var _ := ReadBit();
        var _ := ReadSe();
        var _ := ReadSe();
        var numRefFrames := ReadUe();
        ghost var o := bitOffset;
        var i := 0;
        while i < numRefFrames
          invariant 0 <= i
          invariant SesAt(sps, bitOffset, numRefFrames - i) == SesAt(sps, o, numRefFrames)
        {
          var _ := ReadSe();
          i := i + 1;
        }
      }
    }
  }

  method ParseSpsInfo(sps: seq<byte>) returns (info: SpsInfo)
    ensures info == Info(sps)
  {
    hide UeAt, BitAt, BitsAt, HighAt, PocAt;
    var r := new SpsReader(sps);
    var profileIdc := r.ReadBits(8);
    var _ := r.ReadBits(8);
    var _ := r.ReadBits(8);
    var _ := r.ReadUe();
    if profileIdc in HIGH_PROFILE_IDCS { r.SkipHigh(); }
    var _ := r.ReadUe();
    r.SkipPoc();
    var _ := r.ReadUe();
    var _ := r.ReadBit();
    var w := r.ReadUe();
    var h := r.ReadUe();
    var frameMbsOnlyFlag := r.ReadBit();
    info := SpsInfo((w + 1) * 16, (2 - frameMbsOnlyFlag) * (h + 1) * 16);
  }

  // ------------------------------------------------------------------ the syntax an encoder writes

  /** `n` in binary, most significant bit first. */
  function Binary(n: nat): (b: seq<bit>)
    requires n >= 1
    ensures |b| >= 1 && b[0] == 1
  {
    if n == 1 then [1] else Binary(n / 2) + [n % 2]
  }

  function ZeroBits(n: nat): (z: seq<bit>)
    ensures |z| == n
  {
    seq(n, _ => 0)
  }

  /** Exp-Golomb code of a code number (section 9.1). */
  function Ue(v: nat): seq<bit>
  {
    var b := Binary(v + 1);
    ZeroBits(|b| - 1) + b
  }

  /** Signed Exp-Golomb code (section 9.1.1). */
  function Se(k: int): seq<bit>
  {
    Ue(SeNumber(k))
  }

  function SeNumber(k: int): nat
  {
    if k > 0 then 2 * k - 1 else -2 * k
  }

  /** A fixed-length field of `n` bits. */
  function Fixed(n: nat, v: nat): (b: seq<bit>)
    ensures |b| == n
  {
    if n == 0 then [] else Fixed(n - 1, v / 2) + [v % 2]
  }

  /** One scaling list: absent, or the deltas the encoder wrote. */
  datatype ScalingList = Absent | Present(deltas: seq<int>)

  datatype High = High(chroma: nat, separatePlane: bit, lumaDepth: nat, chromaDepth: nat, bypass: bit,
                       lists: Option<seq<ScalingList>>)

  datatype Poc =
    | Lsb(log2MaxLsb: nat)
    | Cycle(alwaysZero: bit, nonRef: int, topToBottom: int, refFrames: seq<int>)
    | Output(kind: nat)

  /** A sequence parameter set up to the field the parser reads last. */
  datatype Params = Params(profileIdc: byte, constraints: byte, levelIdc: byte, id: nat, high: High,
                           log2MaxFrameNum: nat, poc: Poc, maxRefFrames: nat, gapsAllowed: bit,
                           widthInMbsMinus1: nat, heightInMapUnitsMinus1: nat, frameMbsOnly: bit)

  /** The code numbers the 32-bit arithmetic can hold. */
  predicate Codable(v: nat)
  {
    v <= 0x7FFF_FFFE
  }

  predicate SeCodable(k: int)
  {
    Codable(SeNumber(k))
  }

  /** The deltas are exactly those the list syntax of section 7.3.2.1.1.1 calls for. */
  predicate DeltasFit(deltas: seq<int>, left: nat, last: int, next: int)
    decreases left
  {
    if left == 0 || next == 0 then deltas == []
    else
      && deltas != []
      && -128 <= deltas[0] <= 127
      && var n := (last + deltas[0] + 256) % 256;
         DeltasFit(deltas[1..], left - 1, if n == 0 then last else n, n)
  }

  predicate ListFits(l: ScalingList, i: nat)
  {
    l.Present? ==> DeltasFit(l.deltas, if i < 6 then 16 else 64, 8, 8)
  }

  predicate HighFits(h: High)
  {
    && Codable(h.chroma) && Codable(h.lumaDepth) && Codable(h.chromaDepth)
    && (h.lists.Some? ==>
          && |h.lists.value| == (if h.chroma != 3 then 8 else 12)
          && forall i :: 0 <= i < |h.lists.value| ==> ListFits(h.lists.value[i], i))
  }

  predicate PocFits(p: Poc)
  {
    match p
    case Lsb(n) => Codable(n)
    case Cycle(_, a, b, refs) =>
      SeCodable(a) && SeCodable(b) && Codable(|refs|) && forall k :: k in refs ==> SeCodable(k)
    case Output(kind) => 2 <= kind && Codable(kind)
  }

  /** The profiles whose parameter sets are extended (section 7.3.2.1.1). */
  const EXTENDED_PROFILES: set<int> := {44, 83, 86, 100, 110, 118, 122, 128, 134, 135, 138, 139, 244}

  /** The parser does not know of the extension in profile 135. */
  predicate Fits(p: Params)
  {
    && Codable(p.id) && Codable(p.log2MaxFrameNum) && Codable(p.maxRefFrames)
    && Codable(p.widthInMbsMinus1) && Codable(p.heightInMapUnitsMinus1)
    && PocFits(p.poc)
    && p.profileIdc != 135 && (p.profileIdc in EXTENDED_PROFILES ==> HighFits(p.high))
  }

  function SesBits(ks: seq<int>): seq<bit>
  {
    if ks == [] then [] else Se(ks[0]) + SesBits(ks[1..])
  }

  function ListBits(l: ScalingList): seq<bit>
  {
    match l
    case Absent => [0]
    case Present(deltas) => [1] + SesBits(deltas)
  }

  function ListsBits(ls: seq<ScalingList>): seq<bit>
  {
    if ls == [] then [] else ListBits(ls[0]) + ListsBits(ls[1..])
  }

  function HighBits(h: High): seq<bit>
  {
    Ue(h.chroma) + ((if h.chroma == 3 then [h.separatePlane] else []) +
    (Ue(h.lumaDepth) + (Ue(h.chromaDepth) + ([h.bypass] +
    (if h.lists.None? then [0] else [1] + ListsBits(h.lists.value))))))
  }

  function PocBits(p: Poc): seq<bit>
  {
    match p
    case Lsb(n) => Ue(0) + Ue(n)
    case Cycle(z, a, b, refs) => Ue(1) + ([z] + (Se(a) + (Se(b) + (Ue(|refs|) + SesBits(refs)))))
    case Output(kind) => Ue(kind)
  }

  function TailBits(p: Params): seq<bit>
  {
    Ue(p.log2MaxFrameNum) + (PocBits(p.poc) + (Ue(p.maxRefFrames) + ([p.gapsAllowed] +
    (Ue(p.widthInMbsMinus1) + (Ue(p.heightInMapUnitsMinus1) + [p.frameMbsOnly])))))
  }

  /** The syntax of section 7.3.2.1.1, up to and including frame_mbs_only_flag. */
  function Syntax(p: Params): seq<bit>
  {
    Fixed(8, p.profileIdc) + (Fixed(8, p.constraints) + (Fixed(8, p.levelIdc) + (Ue(p.id) +
    ((if p.profileIdc in EXTENDED_PROFILES then HighBits(p.high) else []) + TailBits(p)))))
  }

  /** The bits stand in the buffer from offset `off` on. */
  ghost predicate Holds(d: seq<byte>, off: nat, bits: seq<bit>)
  {
    forall k :: 0 <= k < |bits| ==> BitAt(d, off + k) == bits[k]
  }

  lemma HoldsSplit(d: seq<byte>, off: nat, a: seq<bit>, b: seq<bit>)
    requires Holds(d, off, a + b)
    ensures Holds(d, off, a) && Holds(d, off + |a|, b)
  {
    hide BitAt;
    forall k | 0 <= k < |a| ensures BitAt(d, off + k) == a[k] { assert (a + b)[k] == a[k]; }
    forall k | 0 <= k < |b| ensures BitAt(d, off + |a| + k) == b[k]
    {
      assert (a + b)[|a| + k] == b[k];
      assert off + |a| + k == off + (|a| + k);
    }
  }

  // ------------------------------------------------------------------ reading back single codes

  /** The value of a bit string, most significant bit first. */
  function Value(bits: seq<bit>): (v: nat)
  {
    if bits == [] then 0 else 2 * Value(bits[..|bits| - 1]) + bits[|bits| - 1]
  }

  lemma {:induction false} ValueBound(bits: seq<bit>)
    ensures Value(bits) < Pow2(|bits|)
  {
    if bits != [] { ValueBound(bits[..|bits| - 1]); }
  }

  lemma {:induction false} Pow2Monotone(a: nat, b: nat)
    requires a <= b
    ensures Pow2(a) <= Pow2(b)
  {
    if a < b { Pow2Monotone(a, b - 1); }
  }

  lemma Pow2Values()
    ensures Pow2(8) == 0x100 && Pow2(16) == 0x1_0000 && Pow2(31) == 0x8000_0000 && Pow2(32) == 0x1_0000_0000
  {
    assert Pow2(8) == 0x100;
    assert Pow2(16) == 0x1_0000 by { assert Pow2(12) == 0x1000; }
    assert Pow2(24) == 0x100_0000 by { assert Pow2(20) == 0x10_0000; }
    assert Pow2(31) == 0x8000_0000 by { assert Pow2(28) == 0x1000_0000; }
  }

  /** Up to 31 bits are read exactly. */
  lemma {:induction false} BitsBack(d: seq<byte>, off: nat, bits: seq<bit>)
    requires Holds(d, off, bits) && |bits| <= 31
    ensures BitsAt(d, off, |bits|) == Value(bits)
  {
    hide BitAt, ToInt32, Pow2;
    if bits != [] {
      var n := |bits| - 1;
      var init := bits[..n];
      assert Holds(d, off, init);
      BitsBack(d, off, init);
      ValueBound(bits);
      Pow2Monotone(|bits|, 31);
      Pow2Values();
      assert BitAt(d, off + n) == bits[n];
    }
  }

  /** A binary number of `n` bits lies between consecutive powers of two. */
  lemma {:induction false} BinaryValue(n: nat)
    requires n >= 1
    ensures var b := Binary(n);
            n == Pow2(|b| - 1) + Value(b[1..]) && Pow2(|b| - 1) <= n < Pow2(|b|)
  {
    var b := Binary(n);
    if n > 1 {
      BinaryValue(n / 2);
      var c := Binary(n / 2);
      assert b[1..] == c[1..] + [n % 2];
      assert b[1..][..|b[1..]| - 1] == c[1..];
    } else {
      assert b[1..] == [];
    }
  }

  lemma {:induction false} ZerosCounted(d: seq<byte>, off: nat, count: nat, z: nat)
    requires count + z <= 32
    requires forall k :: off <= k < off + z ==> BitAt(d, k) == 0
    requires count + z == 32 || BitAt(d, off + z) == 1
    ensures LeadingZeros(d, off, count) == count + z
    decreases z
  {
    hide BitAt;
    if z > 0 {
      ZerosCounted(d, off + 1, count + 1, z - 1);
    }
  }

  /** The parts of an Exp-Golomb code as they stand in the buffer. */
  lemma UeParts(d: seq<byte>, off: nat, v: nat)
    requires Holds(d, off, Ue(v))
    ensures var b := Binary(v + 1); var z := |b| - 1;
            && |Ue(v)| == 2 * z + 1
            && (forall k :: off <= k < off + z ==> BitAt(d, k) == 0)
            && BitAt(d, off + z) == 1
            && Holds(d, off + z + 1, b[1..])
  {
    hide BitAt;
    var b := Binary(v + 1);
    var z := |b| - 1;
    HoldsSplit(d, off, ZeroBits(z), b);
    assert b == [b[0]] + b[1..];
    HoldsSplit(d, off + z, [b[0]], b[1..]);
    assert BitAt(d, off + z + 0) == [b[0]][0];
    forall k | off <= k < off + z ensures BitAt(d, k) == 0
    {
      assert BitAt(d, off + (k - off)) == ZeroBits(z)[k - off];
    }
  }

  /** The length of a code says how large its number is. */
  lemma CodeLength(v: nat)
    ensures var z := |Binary(v + 1)| - 1;
            && v + 1 == Pow2(z) + Value(Binary(v + 1)[1..])
            && (Codable(v) <==> z <= 30)
            && (z >= 32 ==> v >= 0xFFFF_FFFF)
  {
    BinaryValue(v + 1);
    hide Pow2, Binary, Value;
    var z := |Binary(v + 1)| - 1;
    Pow2Values();
    if z <= 30 { Pow2Monotone(z + 1, 31); } else { Pow2Monotone(31, z); }
    if z >= 32 { Pow2Monotone(32, z); }
  }

  /** What is read after `z` zero bits and a one. */
  lemma UeAtZeros(d: seq<byte>, off: nat, z: nat)
    requires forall k :: off <= k < off + z ==> BitAt(d, k) == 0
    requires BitAt(d, off + z) == 1
    ensures z <= 30 ==> UeAt(d, off) == Read(Pow2(z) - 1 + BitsAt(d, off + z + 1, z), off + 2 * z + 1)
    ensures z == 31 ==> UeAt(d, off).v < 0
    ensures z >= 32 ==> UeAt(d, off).v < 0x8000_0000
  {
    hide BitAt, LeadingZeros;
    if z <= 31 {
      ZerosCounted(d, off, 0, z);
      assert Pow2(0) == 1;
      assert z == 0 ==> BitsAt(d, off + 1, 0) == 0;
    } else {
      ZerosCounted(d, off, 0, 32);
    }
  }

  /** What is read after `z` zero bits, a one and the bits `rest`. */
  lemma UeAtParts(d: seq<byte>, off: nat, z: nat, rest: seq<bit>)
    requires z <= 30 && |rest| == z
    requires forall k :: off <= k < off + z ==> BitAt(d, k) == 0
    requires BitAt(d, off + z) == 1
    requires Holds(d, off + z + 1, rest)
    ensures UeAt(d, off) == Read(Pow2(z) + Value(rest) - 1, off + 2 * z + 1)
  {
    hide Pow2, Value, BitAt, BitsAt, UeAt, Holds;
    UeAtZeros(d, off, z);
    BitsBack(d, off + z + 1, rest);
  }

  /** Within 31 bits a code number comes back, with the cursor right behind it. */
  lemma UeBack(d: seq<byte>, off: nat, v: nat)
    requires Holds(d, off, Ue(v)) && Codable(v)
    ensures UeAt(d, off) == Read(v, off + |Ue(v)|)
  {
    hide Pow2, Binary, Value, BitAt, BitsAt, UeAt, Ue, Holds;
    UeParts(d, off, v);
    CodeLength(v);
    var b := Binary(v + 1);
    UeAtParts(d, off, |b| - 1, b[1..]);
  }

  /** The arithmetic holds exactly the code numbers up to 2^31 - 2: beyond them another number is read. */
  lemma UeBackIff(d: seq<byte>, off: nat, v: nat)
    requires Holds(d, off, Ue(v))
    ensures UeAt(d, off).v == v <==> Codable(v)
  {
    if Codable(v) {
      UeBack(d, off, v);
    } else {
      UeParts(d, off, v);
      CodeLength(v);
      hide Pow2, Binary, Value, BitAt, BitsAt, UeAt, Ue, Holds;
      var b := Binary(v + 1);
      var z := |b| - 1;
      UeAtZeros(d, off, z);
    }
  }

  lemma SeBack(d: seq<byte>, off: nat, k: int)
    requires Holds(d, off, Se(k)) && SeCodable(k)
    ensures SeAt(d, off) == Read(k, off + |Se(k)|)
  {
    hide UeAt, Ue, Holds;
    UeBack(d, off, SeNumber(k));
  }

  // ------------------------------------------------------------------ reading back the whole syntax

  lemma {:induction false} FixedBack(d: seq<byte>, off: nat, n: nat, v: nat)
    requires Holds(d, off, Fixed(n, v)) && n <= 31 && v < Pow2(n)
    ensures BitsAt(d, off, n) == v
  {
    BitsBack(d, off, Fixed(n, v));
    FixedValue(n, v);
  }

  lemma {:induction false} FixedValue(n: nat, v: nat)
    requires v < Pow2(n)
    ensures Value(Fixed(n, v)) == v
  {
    if n > 0 {
      FixedValue(n - 1, v / 2);
      assert Fixed(n, v)[..n - 1] == Fixed(n - 1, v / 2);
    }
  }

  lemma {:induction false} SesBack(d: seq<byte>, off: nat, ks: seq<int>)
    requires Holds(d, off, SesBits(ks)) && forall k :: k in ks ==> SeCodable(k)
    ensures SesAt(d, off, |ks|) == off + |SesBits(ks)|
    decreases |ks|
  {
    hide SeAt, Se, BitAt, Holds;
    if ks != [] {
      HoldsSplit(d, off, Se(ks[0]), SesBits(ks[1..]));
      SeBack(d, off, ks[0]);
      SesBack(d, off + |Se(ks[0])|, ks[1..]);
    }
  }

  /** The delta loop consumes exactly the deltas the syntax holds, for any list. */
  lemma {:induction false} ScalingListBack(d: seq<byte>, off: nat, deltas: seq<int>, left: nat, last: int, next: int)
    requires Holds(d, off, SesBits(deltas)) && DeltasFit(deltas, left, last, next)
    requires 0 <= last < 256
    ensures ScalingListAt(d, off, left, last, next) == off + |SesBits(deltas)|
    decreases left
  {
    hide SeAt, Se, BitAt, Holds;
    if left > 0 {
      if next == 0 {
        ScalingListBack(d, off, deltas, left - 1, last, next);
      } else {
        HoldsSplit(d, off, Se(deltas[0]), SesBits(deltas[1..]));
        SeBack(d, off, deltas[0]);
        var n := (last + deltas[0] + 256) % 256;
        ScalingListBack(d, off + |Se(deltas[0])|, deltas[1..], left - 1, if n == 0 then last else n, n);
      }
    }
  }

  lemma {:induction false} ScalingListsBack(d: seq<byte>, off: nat, ls: seq<ScalingList>, i: nat, count: nat)
    requires i + |ls| == count
    requires Holds(d, off, ListsBits(ls))
    requires forall k :: 0 <= k < |ls| ==> ListFits(ls[k], i + k)
    ensures ScalingListsAt(d, off, i, count) == off + |ListsBits(ls)|
    decreases |ls|
  {
    hide BitAt, ScalingListAt, SesBits, DeltasFit;
    if ls != [] {
      var bits := ListBits(ls[0]);
      HoldsSplit(d, off, bits, ListsBits(ls[1..]));
      assert BitAt(d, off + 0) == bits[0];
      assert ListFits(ls[0], i + 0);
      if ls[0].Present? {
        HoldsSplit(d, off, [1], SesBits(ls[0].deltas));
        ScalingListBack(d, off + 1, ls[0].deltas, ListSize(i), 8, 8);
      }
      forall k | 0 <= k < |ls[1..]| ensures ListFits(ls[1..][k], i + 1 + k) { assert ListFits(ls[k + 1], i + (k + 1)); }
      ScalingListsBack(d, off + |bits|, ls[1..], i + 1, count);
    }
  }

  /** A single flag, then the rest. */
  lemma FlagSplit(d: seq<byte>, off: nat, f: bit, rest: seq<bit>)
    requires Holds(d, off, [f] + rest)
    ensures BitAt(d, off) == f && Holds(d, off + 1, rest)
  {
    HoldsSplit(d, off, [f], rest);
    assert BitAt(d, off + 0) == [f][0];
  }

  /** An unsigned code, then the rest. */
  lemma UeSplit(d: seq<byte>, off: nat, v: nat, rest: seq<bit>)
    requires Holds(d, off, Ue(v) + rest) && Codable(v)
    ensures UeAt(d, off) == Read(v, off + |Ue(v)|) && Holds(d, off + |Ue(v)|, rest)
  {
    HoldsSplit(d, off, Ue(v), rest);
    UeBack(d, off, v);
  }

  lemma SeSplit(d: seq<byte>, off: nat, k: int, rest: seq<bit>)
    requires Holds(d, off, Se(k) + rest) && SeCodable(k)
    ensures SeAt(d, off) == Read(k, off + |Se(k)|) && Holds(d, off + |Se(k)|, rest)
  {
    HoldsSplit(d, off, Se(k), rest);
    SeBack(d, off, k);
  }

  lemma HighBack(d: seq<byte>, off: nat, h: High)
    requires Holds(d, off, HighBits(h)) && HighFits(h)
    ensures HighAt(d, off) == off + |HighBits(h)|
  {
    hide Holds, BitAt, UeAt, Ue, ScalingListsAt, ListsBits, ListFits;
    var listBits := if h.lists.None? then [0] else [1] + ListsBits(h.lists.value);
    var r3 := [h.bypass] + listBits;
    var r2 := Ue(h.chromaDepth) + r3;
    var r1 := Ue(h.lumaDepth) + r2;
    var plane := if h.chroma == 3 then [h.separatePlane] else [];
    UeSplit(d, off, h.chroma, plane + r1);
    var o := off + |Ue(h.chroma)|;
    HoldsSplit(d, o, plane, r1);
    var o1 := o + |plane|;
    UeSplit(d, o1, h.lumaDepth, r2);
    var o2 := o1 + |Ue(h.lumaDepth)|;
    UeSplit(d, o2, h.chromaDepth, r3);
    var o3 := o2 + |Ue(h.chromaDepth)|;
    FlagSplit(d, o3, h.bypass, listBits);
    if h.lists.None? {
      assert [0] + [] == listBits;
      FlagSplit(d, o3 + 1, 0, []);
    } else {
      var ls := h.lists.value;
      FlagSplit(d, o3 + 1, 1, ListsBits(ls));
      assert forall k :: 0 <= k < |ls| ==> ListFits(ls[k], 0 + k);
      ScalingListsBack(d, o3 + 2, ls, 0, |ls|);
    }
  }

  lemma PocBack(d: seq<byte>, off: nat, p: Poc)
    requires Holds(d, off, PocBits(p)) && PocFits(p)
    ensures PocAt(d, off) == off + |PocBits(p)|
  {
    hide Holds, BitAt, UeAt, Ue, SeAt, Se, SesAt, SesBits, SeCodable;
    match p
    case Lsb(n) =>
      UeSplit(d, off, 0, Ue(n));
      UeBack(d, off + |Ue(0)|, n);
    case Cycle(z, a, b, refs) =>
      var r3 := Ue(|refs|) + SesBits(refs);
      var r2 := Se(b) + r3;
      var r1 := Se(a) + r2;
      UeSplit(d, off, 1, [z] + r1);
      var o := off + |Ue(1)|;
      FlagSplit(d, o, z, r1);
      SeSplit(d, o + 1, a, r2);
      var o2 := o + 1 + |Se(a)|;
      SeSplit(d, o2, b, r3);
      var o3 := o2 + |Se(b)|;
      UeSplit(d, o3, |refs|, SesBits(refs));
      SesBack(d, o3 + |Ue(|refs|)|, refs);
    case Output(kind) =>
      UeBack(d, off, kind);
  }

  function Size(p: Params): SpsInfo
  {
    SpsInfo((p.widthInMbsMinus1 + 1) * 16, (2 - p.frameMbsOnly) * (p.heightInMapUnitsMinus1 + 1) * 16)
  }

  lemma TailBack(d: seq<byte>, off: nat, p: Params)
    requires Holds(d, off, TailBits(p)) && Fits(p)
    ensures InfoBehindHigh(d, off) == Size(p)
  {
    hide Holds, BitAt, UeAt, Ue, PocAt, PocBits, PocFits, HighFits;
    var r5 := Ue(p.heightInMapUnitsMinus1) + [p.frameMbsOnly];
    var r4 := Ue(p.widthInMbsMinus1) + r5;
    var r3 := [p.gapsAllowed] + r4;
    var r2 := Ue(p.maxRefFrames) + r3;
    UeSplit(d, off, p.log2MaxFrameNum, PocBits(p.poc) + r2);
    var o1 := off + |Ue(p.log2MaxFrameNum)|;
    HoldsSplit(d, o1, PocBits(p.poc), r2);
    PocBack(d, o1, p.poc);
    var o2 := o1 + |PocBits(p.poc)|;
    UeSplit(d, o2, p.maxRefFrames, r3);
    var o3 := o2 + |Ue(p.maxRefFrames)|;
    FlagSplit(d, o3, p.gapsAllowed, r4);
    UeSplit(d, o3 + 1, p.widthInMbsMinus1, r5);
    var o4 := o3 + 1 + |Ue(p.widthInMbsMinus1)|;
    UeSplit(d, o4, p.heightInMapUnitsMinus1, [p.frameMbsOnly]);
    var o5 := o4 + |Ue(p.heightInMapUnitsMinus1)|;
    assert [p.frameMbsOnly] + [] == [p.frameMbsOnly];
    FlagSplit(d, o5, p.frameMbsOnly, []);
  }

  /** Whatever parameter set an encoder writes behind the NAL header, the parser recovers its
      size: for base and high profiles, any scaling lists and any number of reference offsets. */
  lemma SizeRecovered(d: seq<byte>, p: Params)
    requires Fits(p)
    requires Holds(d, 8, Syntax(p))
    ensures Info(d) == Size(p)
  {
    hide Holds, BitAt, BitsAt, UeAt, Ue, Fixed, HighAt, HighBits, TailBits, InfoBehindHigh, Pow2, PocFits, HighFits, Codable;
    var high := if p.profileIdc in EXTENDED_PROFILES then HighBits(p.high) else [];
    var r3 := Ue(p.id) + (high + TailBits(p));
    var r2 := Fixed(8, p.levelIdc) + r3;
    var r1 := Fixed(8, p.constraints) + r2;
    Pow2Values();
    HoldsSplit(d, 8, Fixed(8, p.profileIdc), r1);
    FixedBack(d, 8, 8, p.profileIdc);
    HoldsSplit(d, 16, Fixed(8, p.constraints), r2);
    HoldsSplit(d, 24, Fixed(8, p.levelIdc), r3);
    UeSplit(d, 32, p.id, high + TailBits(p));
    var o := 32 + |Ue(p.id)|;
    HoldsSplit(d, o, high, TailBits(p));
    if p.profileIdc in HIGH_PROFILE_IDCS { HighBack(d, o, p.high); }
    TailBack(d, o + |high|, p);
  }

  // ------------------------------------------------------------------ packing bits into bytes

  /** The byte whose bits are `bits`, padded with zeros. */
  function PackByte(bits: seq<bit>): (b: byte)
    requires |bits| <= 8
  {
    var padded := bits + ZeroBits(8 - |bits|);
    ValueBound(padded);
    Pow2Values();
    Value(padded)
  }

  function Pack(bits: seq<bit>): seq<byte>
  {
    if |bits| <= 8 then [PackByte(bits)] else [PackByte(bits[..8])] + Pack(bits[8..])
  }

  lemma MultipleIsFar(a: int, d: nat)
    ensures a >= 1 ==> a * d >= d
    ensures a <= -1 ==> a * d + d <= 0
  {
  }

  lemma QuotientIs(x: nat, d: nat, q: nat, r: nat)
    requires r < d && x == q * d + r
    ensures x / d == q
  {
    var p, m := x / d, x % d;
    assert x == p * d + m;
    assert (p - q) * d == p * d - q * d;
    MultipleIsFar(p - q, d);
  }

  lemma HalveDivisor(x: nat, y: nat)
    requires y > 0
    ensures x / (2 * y) == x / 2 / y
  {
    var q, r := x / 2 / y, x / 2 % y;
    assert x / 2 == q * y + r;
    assert x == q * (2 * y) + (2 * r + x % 2);
    QuotientIs(x, 2 * y, q, 2 * r + x % 2);
  }

  lemma {:induction false} ValueBit(bits: seq<bit>, k: nat)
    requires k < |bits|
    ensures Value(bits) / Pow2(|bits| - 1 - k) % 2 == bits[k]
    decreases |bits|
  {
    var n := |bits| - 1;
    var init := bits[..n];
    if k < n {
      ValueBit(init, k);
      HalveDivisor(Value(bits), Pow2(n - 1 - k));
      assert Value(bits) / 2 == Value(init);
    } else {
      assert Pow2(0) == 1;
    }
  }

  lemma {:induction false} PackBits(bits: seq<bit>, k: nat)
    requires k < |bits|
    ensures BitAt(Pack(bits), k) == bits[k]
  {
    hide Value, Pow2;
    var d := Pack(bits);
    if |bits| <= 8 {
      ValueBit(bits + ZeroBits(8 - |bits|), k);
    } else if k < 8 {
      ValueBit(bits[..8] + ZeroBits(0), k);
    } else {
      PackBits(bits[8..], k - 8);
      assert k / 8 == (k - 8) / 8 + 1 && k % 8 == (k - 8) % 8;
      assert Num(d, k / 8) == Num(d[1..], k / 8 - 1);
    }
  }

  /** The same for the bytes a NAL unit is made of: header, packed syntax, and anything behind it. */
  lemma NalUnitSizeRecovered(header: byte, p: Params, trailing: seq<bit>)
    requires Fits(p)
    ensures Info([header] + Pack(Syntax(p) + trailing)) == Size(p)
  {
    hide Syntax, Info, Fits, Size, Pack, BitAt;
    var bits := Syntax(p) + trailing;
    var d := [header] + Pack(bits);
    forall k | 0 <= k < |Syntax(p)| ensures BitAt(d, 8 + k) == Syntax(p)[k]
    {
      PackBits(bits, k);
      ByteShift(header, Pack(bits), k);
    }
    SizeRecovered(d, p);
  }

  lemma ByteShift(header: byte, d: seq<byte>, k: nat)
    ensures BitAt([header] + d, 8 + k) == BitAt(d, k)
  {
    assert (8 + k) / 8 == k / 8 + 1 && (8 + k) % 8 == k % 8;
    assert ([header] + d)[1..] == d;
    assert Num([header] + d, k / 8 + 1) == Num(d, k / 8);
  }
}
