/** Bytes, big-endian integers and buffer concatenation, shared by the transmuxer modules. */
module Bytes {

  type byte = b: int | 0 <= b < 256

  /** `data[i]` where a bit operation follows: a read past the end is `undefined`, which becomes 0. */
  function Num(data: seq<byte>, i: int): byte
  {
    if 0 <= i < |data| then data[i] else 0
  }

  /** `data[i] === v`: a read past the end equals no byte. */
  predicate Is(data: seq<byte>, i: int, v: byte)
  {
    0 <= i < |data| && data[i] == v
  }

  function Zeros(n: nat): (z: seq<byte>)
    ensures |z| == n && forall k :: 0 <= k < n ==> z[k] == 0
  {
    seq(n, _ => 0)
  }

  /** The low 32 bits of an integer, as the unsigned writes of a DataView keep them. */
  function U32(v: int): (r: nat)
    ensures r < 0x1_0000_0000
    ensures 0 <= v < 0x1_0000_0000 ==> r == v
  {
    v % 0x1_0000_0000
  }

  /** Big-endian 16-bit encoding. */
  function BE16(v: int): (s: seq<byte>)
    ensures |s| == 2
  {
    var w := v % 0x1_0000;
    [w / 256, w % 256]
  }

  /** Big-endian 32-bit encoding of the low 32 bits. */
  function BE32(v: int): (s: seq<byte>)
    ensures |s| == 4
  {
    var w := U32(v);
    [w / 0x100_0000, w / 0x1_0000 % 256, w / 256 % 256, w % 256]
  }

  /** Reads four bytes big-endian. */
  function ReadBE32(s: seq<byte>, i: nat): (v: nat)
    requires i + 4 <= |s|
    ensures v < 0x1_0000_0000
  {
    var a: int, b: int, c: int, d: int := s[i], s[i + 1], s[i + 2], s[i + 3];
    a * 0x100_0000 + b * 0x1_0000 + c * 256 + d
  }

  lemma ReadBE32Inverts(v: int)
    ensures ReadBE32(BE32(v), 0) == U32(v)
  {
    var w := U32(v);
    var q := w / 256;
    assert w == q * 256 + w % 256;
    var r := w / 0x1_0000;
    assert r == q / 256;
    assert q == r * 256 + q % 256;
    assert w / 0x100_0000 == r / 256;
    assert r == (r / 256) * 256 + r % 256;
  }

  lemma ReadBE32At(s: seq<byte>, i: nat, v: int)
    requires i + 4 <= |s| && s[i..i + 4] == BE32(v)
    ensures ReadBE32(s, i) == U32(v)
  {
    var b := s[i..i + 4];
    assert b[0] == s[i] && b[1] == s[i + 1] && b[2] == s[i + 2] && b[3] == s[i + 3];
    ReadBE32Inverts(v);
  }

  /** The concatenation of a list of buffers. */
  function Concat<T>(parts: seq<seq<T>>): seq<T>
  {
    if parts == [] then [] else parts[0] + Concat(parts[1..])
  }

  lemma {:induction false} ConcatAppend<T>(a: seq<seq<T>>, b: seq<seq<T>>)
    ensures Concat(a + b) == Concat(a) + Concat(b)
  {
    if a == [] {
      assert a + b == b;
    } else {
      ConcatAppend(a[1..], b);
      assert (a + b)[1..] == a[1..] + b;
      assert a[0] + (Concat(a[1..]) + Concat(b)) == a[0] + Concat(a[1..]) + Concat(b);
    }
  }

  lemma ConcatSnoc<T>(a: seq<seq<T>>, x: seq<T>)
    ensures Concat(a + [x]) == Concat(a) + x
  {
    ConcatAppend(a, [x]);
    assert Concat([x]) == x + Concat([]);
    assert Concat([x]) == x;
  }

  function TotalLength<T>(parts: seq<seq<T>>): nat
  {
    if parts == [] then 0 else |parts[0]| + TotalLength(parts[1..])
  }

  lemma {:induction false} TotalLengthIsConcatLength<T>(parts: seq<seq<T>>)
    ensures TotalLength(parts) == |Concat(parts)|
  {
    if parts != [] { TotalLengthIsConcatLength(parts[1..]); }
  }

  lemma {:induction false} TotalLengthSnoc<T>(a: seq<seq<T>>, x: seq<T>)
    ensures TotalLength(a + [x]) == TotalLength(a) + |x|
  {
    TotalLengthIsConcatLength(a);
    TotalLengthIsConcatLength(a + [x]);
    ConcatSnoc(a, x);
  }

  /** Two passes over the buffers: measure, then copy each one behind the previous. */
  method ConcatBuffers(buffers: seq<seq<byte>>) returns (joined: seq<byte>)
    ensures joined == Concat(buffers)
  {
    var totalLength := 0;
    for i := 0 to |buffers|
      invariant totalLength == TotalLength(buffers[..i])
    {
      assert buffers[..i + 1] == buffers[..i] + [buffers[i]];
      TotalLengthSnoc(buffers[..i], buffers[i]);
      totalLength := totalLength + |buffers[i]|;
    }
    assert buffers[..|buffers|] == buffers;
    TotalLengthIsConcatLength(buffers);
    var result := new byte[totalLength](_ => 0);
    var offset := 0;
    for i := 0 to |buffers|
      invariant 0 <= offset <= result.Length
      invariant result[..offset] == Concat(buffers[..i])
      invariant result.Length == offset + |Concat(buffers[i..])|
    {
      var buf := buffers[i];
      assert buffers[i..][0] == buf && buffers[i..][1..] == buffers[i + 1..];
      ghost var done := result[..offset];
      forall k | 0 <= k < |buf| {
        result[offset + k] := buf[k];
      }
      assert result[..offset + |buf|] == done + buf;
      assert buffers[..i + 1] == buffers[..i] + [buf];
      ConcatSnoc(buffers[..i], buf);
      offset := offset + |buf|;
    }
    joined := result[..];
    assert joined == result[..offset];
  }
}
