/**
  * NAL units as they are sent: a byte 3 keeps two zero bytes apart from a small one (section 7.3.1 of ITU-T H.264).
  * The parser does not take these bytes out.
  */
module SpsEscape {
  import opened Bytes
  import opened Sps
  import opened Wrappers

  function ZerosThen(zeros: nat, b: byte): nat
  {
    if b == 0 then zeros + 1 else 0
  }

  /** What an encoder sends behind `zeros` zero bytes. */
  function Escaped(d: seq<byte>, zeros: nat): seq<byte>
    decreases |d|
  {
    if d == [] then []
    else if zeros >= 2 && d[0] <= 3 then [3, d[0]] + Escaped(d[1..], ZerosThen(0, d[0]))
    else [d[0]] + Escaped(d[1..], ZerosThen(zeros, d[0]))
  }

  /** What a decoder should read. */
  function Unescaped(d: seq<byte>, zeros: nat): seq<byte>
    decreases |d|
  {
    if d == [] then []
    else if zeros >= 2 && d[0] == 3 then Unescaped(d[1..], 0)
    else [d[0]] + Unescaped(d[1..], ZerosThen(zeros, d[0]))
  }

  /** Two zero bytes and a byte of at most 3 in a row. */
  predicate RunAt(d: seq<byte>, k: nat)
  {
    k + 2 < |d| && d[k] == 0 && d[k + 1] == 0 && d[k + 2] <= 3
  }

  predicate NoRun(d: seq<byte>)
  {
    forall k: nat :: k < |d| ==> !RunAt(d, k)
  }

  /** Taking the bytes out again gives back what was escaped. */
  lemma {:induction false} UnescapeEscape(d: seq<byte>, zeros: nat)
    requires zeros <= 2
    ensures Unescaped(Escaped(d, zeros), zeros) == d
    decreases |d|
  {
    if d != [] {
      var e := Escaped(d, zeros);
      if zeros >= 2 && d[0] <= 3 {
        UnescapeEscape(d[1..], ZerosThen(0, d[0]));
        assert e[1..] == [d[0]] + Escaped(d[1..], ZerosThen(0, d[0]));
        assert e[1..][1..] == Escaped(d[1..], ZerosThen(0, d[0]));
      } else {
        UnescapeEscape(d[1..], ZerosThen(zeros, d[0]));
        assert e[1..] == Escaped(d[1..], ZerosThen(zeros, d[0]));
      }
    }
  }

  /** As long as there is no run, nothing is put in. */
  lemma {:induction false} FrontKept(d: seq<byte>, before: seq<byte>, zeros: nat, n: nat)
    requires n <= |d| && NoRun(before + d[..n])
    requires zeros <= |before| && forall i :: |before| - zeros <= i < |before| ==> before[i] == 0
    ensures n <= |Escaped(d, zeros)| && Escaped(d, zeros)[..n] == d[..n]
    ensures n == |d| ==> Escaped(d, zeros) == d
    decreases n
  {
    if n > 0 {
      var all := before + d[..n];
      if zeros >= 2 && d[0] <= 3 { assert RunAt(all, |before| - 2); }
      var more := before + [d[0]];
      assert more + d[1..][..n - 1] == all;
      FrontKept(d[1..], more, ZerosThen(zeros, d[0]), n - 1);
      assert Escaped(d, zeros) == [d[0]] + Escaped(d[1..], ZerosThen(zeros, d[0]));
    }
  }

  lemma {:induction false} LongerEscaped(d: seq<byte>, zeros: nat)
    ensures |Escaped(d, zeros)| >= |d|
    decreases |d|
  {
    if d != [] {
      LongerEscaped(d[1..], ZerosThen(0, d[0]));
      LongerEscaped(d[1..], ZerosThen(zeros, d[0]));
    }
  }

  /** A run makes the sent bytes more. */
  lemma {:induction false} RunGrows(d: seq<byte>, zeros: nat, k: nat)
    requires RunAt(d, k)
    ensures |Escaped(d, zeros)| > |d|
    decreases k
  {
    LongerEscaped(d[1..], ZerosThen(0, d[0]));
    if k > 0 {
      assert RunAt(d[1..], k - 1);
      RunGrows(d[1..], ZerosThen(zeros, d[0]), k - 1);
    } else if zeros < 2 {
      var z := ZerosThen(zeros, 0);
      var e := d[1..][1..];
      assert Escaped(d[1..], z) == (if z >= 2 then [3, 0] else [0]) + Escaped(e, if z >= 2 then 1 else z + 1);
      LongerEscaped(e, 1);
      assert e[0] == d[2];
      LongerEscaped(e[1..], ZerosThen(0, e[0]));
    }
  }

  /** The bytes sent are the bytes themselves exactly when there is no run in them. */
  lemma EscapedIff(d: seq<byte>)
    ensures Escaped(d, 0) == d <==> NoRun(d)
  {
    if NoRun(d) {
      assert [] + d[..|d|] == d;
      FrontKept(d, [], 0, |d|);
    } else {
      var k: nat :| k < |d| && RunAt(d, k);
      RunGrows(d, 0, k);
    }
  }

  // ------------------------------------------------------------------ parameter sets as they are sent

  /** The bytes that hold `n` bits. */
  function BytesOf(n: nat): nat
  {
    (n + 7) / 8
  }

  predicate NoRunWithin(d: seq<byte>, n: nat)
  {
    forall k: nat :: k + 2 < n ==> !RunAt(d, k)
  }

  lemma {:induction false} PackLength(bits: seq<bit>)
    ensures |Pack(bits)| >= BytesOf(|bits|)
    decreases |bits|
  {
    hide PackByte;
    if |bits| > 8 { PackLength(bits[8..]); }
  }

  /** The size comes through when the bytes that hold the syntax have no run; what stands behind them may be escaped. */
  lemma SentSizeRecovered(header: byte, p: Params, trailing: seq<bit>)
    requires Fits(p)
    requires NoRunWithin(Pack(Syntax(p) + trailing), BytesOf(|Syntax(p)|))
    ensures Info([header] + Escaped(Pack(Syntax(p) + trailing), 0)) == Size(p)
  {
    hide Syntax, Info, Fits, Size, Pack, BitAt, Escaped;
    var bits := Syntax(p) + trailing;
    var d := Pack(bits);
    var n := BytesOf(|Syntax(p)|);
    PackLength(bits);
    assert [] + d[..n] == d[..n];
    assert forall k: nat :: k < n && RunAt(d[..n], k) ==> RunAt(d, k);
    FrontKept(d, [], 0, n);
    var e := Escaped(d, 0);
    forall k | 0 <= k < |Syntax(p)| ensures BitAt([header] + e, 8 + k) == Syntax(p)[k]
    {
      PackBits(bits, k);
      ByteShift(header, e, k);
      assert k / 8 < n;
      assert e[k / 8] == e[..n][k / 8] && d[k / 8] == d[..n][k / 8];
      SameBit(e, k / 8, d, k / 8, k, k);
    }
    SizeRecovered([header] + e, p);
  }

  /** Profile, constraints and level stand in front, and nothing is put in between. */
  lemma SentProfile(header: byte, p: Params, trailing: seq<bit>)
    requires Fits(p) && NoRunWithin(Pack(Syntax(p) + trailing), BytesOf(|Syntax(p)|))
    ensures var d := [header] + Escaped(Pack(Syntax(p) + trailing), 0);
            |d| >= 4 && d[1..4] == [p.profileIdc, p.constraints, p.levelIdc]
  {
    hide Info, Fits, Size, Pack, Escaped, Ue, HighBits, TailBits;
    var bits := Syntax(p) + trailing;
    var d := Pack(bits);
    var n := BytesOf(|Syntax(p)|);
    PackLength(bits);
    assert [] + d[..n] == d[..n];
    assert forall k: nat :: k < n && RunAt(d[..n], k) ==> RunAt(d, k);
    FrontKept(d, [], 0, n);
    var e := Escaped(d, 0);
    ProfilePacked(p, trailing);
    assert e[..n] == d[..n] && n >= 3;
    assert e[0] == e[..n][0] && e[1] == e[..n][1] && e[2] == e[..n][2];
    assert d[0] == d[..n][0] && d[1] == d[..n][1] && d[2] == d[..n][2];
  }

  lemma PackFront(a: seq<bit>, rest: seq<bit>)
    requires |a| == 8 && rest != []
    ensures Pack(a + rest) == [PackByte(a)] + Pack(rest) && Pack(rest) != []
  {
    hide PackByte;
    assert (a + rest)[..8] == a && (a + rest)[8..] == rest;
  }

  lemma Nested(a: seq<bit>, b: seq<bit>, c: seq<bit>, d: seq<bit>, e: seq<bit>)
    ensures (a + (b + (c + d))) + e == a + (b + (c + (d + e)))
  {
  }

  lemma UeNonempty(v: nat)
    ensures Ue(v) != []
  {
  }

  lemma ProfilePacked(p: Params, trailing: seq<bit>)
    ensures |Syntax(p)| >= 24
    ensures var d := Pack(Syntax(p) + trailing); |d| >= 3 && d[0] == p.profileIdc && d[1] == p.constraints && d[2] == p.levelIdc
  {
    hide Ue, HighBits, TailBits, Fixed, Pack, PackByte;
    UeNonempty(p.id);
    var a, b, c := Fixed(8, p.profileIdc), Fixed(8, p.constraints), Fixed(8, p.levelIdc);
    var more := Ue(p.id) + ((if p.profileIdc in EXTENDED_PROFILES then HighBits(p.high) else []) + TailBits(p));
    FixedByte(p.profileIdc);
    FixedByte(p.constraints);
    FixedByte(p.levelIdc);
    assert Syntax(p) == a + (b + (c + more));
    Nested(a, b, c, more, trailing);
    PackFront(a, b + (c + (more + trailing)));
    PackFront(b, c + (more + trailing));
    PackFront(c, more + trailing);
  }

  /** Bits are the same where the bytes are. */
  lemma SameBit(a: seq<byte>, i: nat, b: seq<byte>, j: nat, m: nat, n: nat)
    requires i < |a| && j < |b| && a[i] == b[j] && m / 8 == i && n / 8 == j && m % 8 == n % 8
    ensures BitAt(a, m) == BitAt(b, n)
  {
  }

  /** A decoder that takes the bytes out first always recovers the size. */
  lemma UnescapedSizeRecovered(header: byte, p: Params, trailing: seq<bit>)
    requires Fits(p)
    ensures Info([header] + Unescaped(Escaped(Pack(Syntax(p) + trailing), 0), 0)) == Size(p)
  {
    UnescapeEscape(Pack(Syntax(p) + trailing), 0);
    NalUnitSizeRecovered(header, p, trailing);
  }

  // ------------------------------------------------------------------ a parameter set that does not come through

  function Ones(n: nat): (z: seq<bit>)
    ensures |z| == n
  {
    seq(n, _ => 1)
  }

  /** A bit string that begins with 1 is the binary form of its value. */
  lemma {:induction false} BinaryOfValue(bits: seq<bit>)
    requires bits != [] && bits[0] == 1
    ensures Value(bits) >= 1 && Binary(Value(bits)) == bits
    decreases |bits|
  {
    var n := |bits| - 1;
    if n > 0 {
      BinaryOfValue(bits[..n]);
      assert bits == bits[..n] + [bits[n]];
    } else {
      assert bits[..0] == [];
      assert Value([]) == 0;
      assert bits == [1];
    }
  }

  /** The number whose signed code is these zeros, a 1 and these bits, when the last of them is a 1. */
  function Coded(bits: seq<bit>): int
  {
    -(Value([1] + bits) / 2)
  }

  lemma CodedBits(bits: seq<bit>)
    requires 0 < |bits| <= 30 && bits[|bits| - 1] == 1
    ensures Se(Coded(bits)) == ZeroBits(|bits|) + ([1] + bits) && SeCodable(Coded(bits))
  {
    hide Pow2, Binary;
    var b := [1] + bits;
    BinaryOfValue(b);
    ValueBound(b);
    Pow2Monotone(|b|, 31);
    Pow2Values();
    assert Value(b) == 2 * Value(b[..|b| - 1]) + 1;
    assert SeNumber(Coded(bits)) == Value(b) - 1;
  }

  /** Base profile, picture order count of type 1, one large offset. */
  function OffsetParams(nonRef: int, w: nat, h: nat): Params
  {
    Params(66, 0, 30, 0, High(0, 0, 0, 0, 0, None), 0, Cycle(0, nonRef, 0, []), 0, 1, w, h, 1)
  }

  /** The bits in front of the offset. */
  function Head(): seq<bit>
  {
    Fixed(8, 66) + (Fixed(8, 0) + (Fixed(8, 30) + [1, 1, 0, 1, 0, 0]))
  }

  lemma SmallCodes()
    ensures Ue(0) == [1] && Ue(1) == [0, 1, 0] && Se(0) == [1]
  {
    assert Binary(1) == [1] && Binary(2) == [1, 0];
    assert ZeroBits(0) == [] && ZeroBits(1) == [0];
  }

  lemma OffsetSyntax(nonRef: int, w: nat, h: nat)
    ensures Syntax(OffsetParams(nonRef, w, h))
         == Head() + (Se(nonRef) + ([1, 1, 1, 1] + (Ue(w) + (Ue(h) + [1]))))
  {
    hide Fixed, Se, Ue;
    SmallCodes();
    var tail := Ue(w) + (Ue(h) + [1]);
    assert SesBits([]) == [];
    assert PocBits(Cycle(0, nonRef, 0, [])) == [0, 1, 0] + ([0] + (Se(nonRef) + ([1] + ([1] + []))));
    assert 66 !in EXTENDED_PROFILES;
    assert TailBits(OffsetParams(nonRef, w, h)) == [1] + (([0, 1, 0] + ([0] + (Se(nonRef) + ([1] + ([1] + []))))) + ([1] + ([1] + tail)));
    assert Syntax(OffsetParams(nonRef, w, h))
        == Fixed(8, 66) + (Fixed(8, 0) + (Fixed(8, 30) + ([1] + ([] + TailBits(OffsetParams(nonRef, w, h))))));
  }

  lemma {:induction false} OnesValue(n: nat)
    ensures Value(Ones(n)) == Pow2(n) - 1
  {
    if n > 0 {
      OnesValue(n - 1);
      assert Ones(n)[..n - 1] == Ones(n - 1);
    }
  }

  lemma LargeOffset()
    ensures Coded(Ones(24)) == -16777215
  {
    assert [1] + Ones(24) == Ones(25);
    OnesValue(25);
    assert Pow2(10) == 0x400;
    assert Pow2(18) == 0x4_0000;
    assert Pow2(25) == 0x200_0000;
  }

  lemma {:induction false} PackAt(bits: seq<bit>, i: nat)
    requires 8 * i + 8 <= |bits|
    ensures i < |Pack(bits)| && Pack(bits)[i] == PackByte(bits[8 * i..8 * i + 8])
    decreases i
  {
    hide PackByte;
    if i == 0 {
      assert |bits| <= 8 ==> bits[..8] == bits;
    } else {
      PackAt(bits[8..], i - 1);
      assert bits[8..][8 * (i - 1)..8 * (i - 1) + 8] == bits[8 * i..8 * i + 8];
    }
  }

  function Weigh(a: int, b: int, c: int, d: int): int
  {
    8 * a + 4 * b + 2 * c + d
  }

  lemma HalfValue(f: seq<bit>)
    requires |f| == 4
    ensures Value(f) == Weigh(f[0], f[1], f[2], f[3])
  {
    assert f[..3][..2] == f[..2] && f[..2][..1] == f[..1] && f[..1][..0] == [];
    assert Value(f[..0]) == 0;
    var a: int, b: int, c: int, d: int := f[0], f[1], f[2], f[3];
    assert Value(f[..1]) == a;
    assert Value(f[..2]) == 2 * a + b;
    assert Value(f[..3]) == 4 * a + 2 * b + c;
  }

  lemma ByteIs(f: seq<bit>)
    requires |f| == 8
    ensures PackByte(f) == 16 * Weigh(f[0], f[1], f[2], f[3]) + Weigh(f[4], f[5], f[6], f[7])
  {
    HalfValue(f[..4]);
    assert f + ZeroBits(0) == f;
    assert f[..7][..6] == f[..6] && f[..6][..5] == f[..5] && f[..5][..4] == f[..4];
    var a: int, b: int, c: int, d: int := f[4], f[5], f[6], f[7];
    assert Value(f[..5]) == 2 * Value(f[..4]) + a;
    assert Value(f[..6]) == 2 * Value(f[..5]) + b;
    assert Value(f[..7]) == 2 * Value(f[..6]) + c;
    assert Value(f) == 2 * Value(f[..7]) + d;
  }

  lemma FixedByte(v: nat)
    requires v < 256
    ensures PackByte(Fixed(8, v)) == v
  {
    hide Fixed;
    assert Fixed(8, v) + ZeroBits(0) == Fixed(8, v);
    Pow2Values();
    FixedValue(8, v);
  }

  /** The bits of the parameter set, whatever follows the offset. */
  function OffsetBits(rest: seq<bit>): seq<bit>
  {
    Head() + ((ZeroBits(24) + ([1] + Ones(24))) + rest)
  }

  /** Its first ten bytes: 42 00 1E D0 00 00 03 FF FF, and a byte of at least 254. */
  predicate OffsetBytes(d: seq<byte>)
  {
    && |d| >= 10 && d[0] == 66 && d[1] == 0 && d[2] == 30 && d[3] == 208 && d[4] == 0 && d[5] == 0 && d[6] == 3
    && d[7] == 255 && d[8] == 255 && d[9] >= 254
  }

  lemma HeadAt(rest: seq<bit>)
    ensures var b := OffsetBits(rest);
            && |b| == 79 + |rest| && b[0..8] == Fixed(8, 66) && b[8..16] == Fixed(8, 0) && b[16..24] == Fixed(8, 30)
            && b[24..32] == [1, 1, 0, 1, 0, 0, 0, 0]
            && (forall k :: 30 <= k < 54 ==> b[k] == 0) && (forall k :: 54 <= k < 79 ==> b[k] == 1)
  {
    hide Fixed;
    var b := OffsetBits(rest);
    var h := Head();
    assert h[24..] == [1, 1, 0, 1, 0, 0];
    assert h[0..8] == Fixed(8, 66) && h[8..16] == Fixed(8, 0) && h[16..24] == Fixed(8, 30);
    HeadLength();
    assert forall k :: 0 <= k < 30 ==> b[k] == h[k];
    var tail := (ZeroBits(24) + ([1] + Ones(24))) + rest;
    assert forall k :: 30 <= k < |b| ==> b[k] == tail[k - 30];
    forall k | 0 <= k < 8 ensures b[k] == h[0..8][k] && b[8 + k] == h[8..16][k] && b[16 + k] == h[16..24][k] {
    }
    forall k | 0 <= k < 6 ensures b[24 + k] == h[24..][k] {
    }
  }

  lemma OffsetBytesAre(rest: seq<bit>)
    requires |rest| >= 1
    ensures OffsetBytes(Pack(OffsetBits(rest)))
  {
    hide PackByte, Pack, OffsetBits, Fixed;
    var b := OffsetBits(rest);
    HeadAt(rest);
    FixedByte(66);
    FixedByte(0);
    FixedByte(30);
    PackAt(b, 0);
    PackAt(b, 1);
    PackAt(b, 2);
    PackAt(b, 3);
    ByteIs([1, 1, 0, 1, 0, 0, 0, 0]);
    OffsetByteAt(rest, 4);
    OffsetByteAt(rest, 5);
    OffsetByteAt(rest, 6);
    OffsetByteAt(rest, 7);
    OffsetByteAt(rest, 8);
    OffsetByteAt(rest, 9);
  }

  lemma OffsetByteAt(rest: seq<bit>, i: nat)
    requires |rest| >= 1 && 4 <= i <= 9
    ensures var d := Pack(OffsetBits(rest));
            && i < |d| && (if i < 6 then d[i] == 0 else if i == 6 then d[i] == 3 else if i < 9 then d[i] == 255 else d[i] >= 254)
  {
    hide PackByte, Pack, OffsetBits, Fixed;
    HeadAt(rest);
    PackedByte(OffsetBits(rest), i);
  }

  lemma PackedByte(b: seq<bit>, i: nat)
    requires 8 * i + 8 <= |b|
    ensures i < |Pack(b)|
    ensures Pack(b)[i] == 16 * Weigh(b[8 * i], b[8 * i + 1], b[8 * i + 2], b[8 * i + 3])
                          + Weigh(b[8 * i + 4], b[8 * i + 5], b[8 * i + 6], b[8 * i + 7])
  {
    hide PackByte, Pack, Weigh;
    PackAt(b, i);
    ByteIs(b[8 * i..8 * i + 8]);
  }

  /** What is sent: one byte more, in front of the sixth. */
  lemma OffsetSent(d: seq<byte>)
    requires OffsetBytes(d)
    ensures var e := Escaped(d, 0);
            && |e| >= 11 && e[6] == 3 && (forall i :: 0 <= i < 6 ==> e[i] == d[i]) && forall i :: 6 <= i < 10 ==> e[i + 1] == d[i]
  {
    assert d[1..][1..] == d[2..] && d[2..][1..] == d[3..] && d[3..][1..] == d[4..] && d[4..][1..] == d[5..];
    assert d[5..][1..] == d[6..] && d[6..][1..] == d[7..] && d[7..][1..] == d[8..] && d[8..][1..] == d[9..];
    assert Escaped(d[9..], 0) == [d[9]] + Escaped(d[9..][1..], 0);
    assert Escaped(d[8..], 0) == [255] + Escaped(d[9..], 0);
    assert Escaped(d[7..], 0) == [255] + Escaped(d[8..], 0);
    assert Escaped(d[6..], 2) == [3, 3] + Escaped(d[7..], 0);
    assert Escaped(d[5..], 1) == [0] + Escaped(d[6..], 2);
    assert Escaped(d[4..], 0) == [0] + Escaped(d[5..], 1);
    assert Escaped(d[3..], 0) == [208] + Escaped(d[4..], 0);
    assert Escaped(d[2..], 1) == [30] + Escaped(d[3..], 0);
    assert Escaped(d[1..], 0) == [0] + Escaped(d[2..], 1);
    assert Escaped(d, 0) == [66] + Escaped(d[1..], 0);
  }

  /** What the parser then takes for the offset. */
  function MisreadOffset(): seq<bit>
  {
    [1] + (ZeroBits(6) + ([1] + Ones(16)))
  }

  lemma MisreadBits()
    ensures var s := MisreadOffset();
            |s| == 24 && s[0] == 1 && (forall k :: 1 <= k < 7 ==> s[k] == 0) && forall k :: 7 <= k < 24 ==> s[k] == 1
  {
  }

  lemma MisreadSyntax(k: nat)
    requires k < 86
    ensures var bits := Syntax(OffsetParams(Coded(MisreadOffset()), 0, 0));
            |bits| == 86 && bits[k] == (if k < 30 then Head()[k] else if k < 54 then 0 else if k < 56 then 1 else if k < 62 then 0 else 1)
  {
    hide Syntax, Se, Coded, Head, MisreadOffset, Ue;
    SmallCodes();
    MisreadBits();
    CodedBits(MisreadOffset());
    OffsetSyntax(Coded(MisreadOffset()), 0, 0);
    HeadLength();
    var code := ZeroBits(24) + ([1] + MisreadOffset());
    var rest := [1, 1, 1, 1] + ([1] + ([1] + [1]));
    var tail := code + rest;
    var bits := Head() + tail;
    assert |tail| == 56 && |rest| == 7;
    if k >= 30 {
      assert bits[k] == tail[k - 30];
      if k < 79 { assert tail[k - 30] == code[k - 30]; } else { assert tail[k - 30] == rest[k - 79]; }
    }
  }

  lemma HeadLength()
    ensures |Head()| == 30
  {
  }

  lemma ThreeBits(d: seq<byte>, k: nat)
    requires |d| > 6 && d[6] == 3 && 48 <= k < 56
    ensures BitAt(d, k) == if k < 54 then 0 else 1
  {
    assert k / 8 == 6;
    assert Pow2(0) == 1 && Pow2(1) == 2 && Pow2(2) == 4;
    if k < 54 { Pow2Monotone(2, 7 - k % 8); }
  }

  /** What is sent for such a parameter set is read as one of 16 by 16, whatever size it has. */
  lemma ReadAs16(header: byte, rest: seq<bit>)
    requires |rest| >= 1
    ensures Info([header] + Escaped(Pack(OffsetBits(rest)), 0)) == SpsInfo(16, 16)
  {
    hide Escaped, Pack, OffsetBits, Syntax, BitAt, Info, Coded, Head, OffsetBytes;
    var bits := OffsetBits(rest);
    var d := Pack(bits);
    var e := Escaped(d, 0);
    var q := OffsetParams(Coded(MisreadOffset()), 0, 0);
    OffsetBytesAre(rest);
    OffsetSent(d);
    MisreadSyntax(0);
    MisreadFits();
    forall k | 0 <= k < 86 ensures BitAt([header] + e, 8 + k) == Syntax(q)[k]
    {
      MisreadSyntax(k);
      ByteShift(header, e, k);
      SentBit(rest, k);
    }
    SizeRecovered([header] + e, q);
  }

  lemma MisreadFits()
    ensures var q := OffsetParams(Coded(MisreadOffset()), 0, 0); Fits(q) && Size(q) == SpsInfo(16, 16)
  {
    hide Coded, MisreadOffset, SeNumber;
    MisreadBits();
    CodedBits(MisreadOffset());
    NoOffset();
  }

  lemma SentBit(rest: seq<bit>, k: nat)
    requires |rest| >= 1 && k < 86
    ensures BitAt(Escaped(Pack(OffsetBits(rest)), 0), k)
         == if k < 30 then Head()[k] else if k < 54 then 0 else if k < 56 then 1 else if k < 62 then 0 else 1
  {
    hide Escaped, Pack, BitAt, OffsetBits, Head;
    var bits := OffsetBits(rest);
    var d := Pack(bits);
    var e := Escaped(d, 0);
    OffsetBytesAre(rest);
    OffsetSent(d);
    HeadAt(rest);
    HeadIs(rest);
    if k < 48 {
      PackBits(bits, k);
      SameBit(e, k / 8, d, k / 8, k, k);
    } else if k < 56 {
      ThreeBits(e, k);
    } else {
      PackBits(bits, k - 8);
      SameBit(e, k / 8, d, k / 8 - 1, k, k - 8);
    }
  }

  lemma HeadIs(rest: seq<bit>)
    ensures |Head()| == 30 && forall k :: 0 <= k < 30 ==> OffsetBits(rest)[k] == Head()[k]
  {
    hide Fixed;
  }

  /** A base profile parameter set with the offset -16777215 comes through exactly when its size is 16 by 16: the parser
      reads 16 by 16 whatever it is. */
  lemma SentSizeLost(header: byte, w: nat, h: nat, trailing: seq<bit>)
    requires Codable(w) && Codable(h)
    ensures var p := OffsetParams(-16777215, w, h);
            && Fits(p) && Size(p) == SpsInfo((w + 1) * 16, (h + 1) * 16)
            && Info([header] + Escaped(Pack(Syntax(p) + trailing), 0)) == SpsInfo(16, 16)
            && (Info([header] + Escaped(Pack(Syntax(p) + trailing), 0)) == Size(p) <==> w == 0 && h == 0)
  {
    hide Escaped, Pack, Info, Syntax, Coded, OffsetBits, Ue;
    LargeOffset();
    CodedBits(Ones(24));
    OffsetSyntax(-16777215, w, h);
    var tail := [1, 1, 1, 1] + (Ue(w) + (Ue(h) + [1]));
    OffsetFits(w, h);
    SyntaxIs(w, h, trailing, tail);
    ReadAs16(header, tail + trailing);
  }

  lemma NoOffset()
    ensures SeNumber(0) == 0
  {
  }

  lemma OffsetFits(w: nat, h: nat)
    requires Codable(w) && Codable(h) && SeCodable(-16777215)
    ensures var p := OffsetParams(-16777215, w, h); Fits(p) && Size(p) == SpsInfo((w + 1) * 16, (h + 1) * 16)
  {
    NoOffset();
  }

  lemma SyntaxIs(w: nat, h: nat, trailing: seq<bit>, tail: seq<bit>)
    requires Syntax(OffsetParams(-16777215, w, h)) == Head() + (Se(-16777215) + tail)
    requires Se(-16777215) == ZeroBits(24) + ([1] + Ones(24))
    ensures Syntax(OffsetParams(-16777215, w, h)) + trailing == OffsetBits(tail + trailing)
  {
    hide Syntax, Se, Head;
    var code := ZeroBits(24) + ([1] + Ones(24));
    assert (Head() + (code + tail)) + trailing == Head() + (code + (tail + trailing));
  }
}
