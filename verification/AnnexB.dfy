/**
 The H.264 Annex B byte-stream scanner: start codes of three or four bytes separate
 NAL units, and zero padding may stand before every start code and at the end.
 */
module AnnexB {
  import opened Bytes

  /** A start code `00 00 01` begins at `k`. */
  predicate StartAt(d: seq<byte>, k: nat)
  {
    k + 2 < |d| && d[k] == 0 && d[k + 1] == 0 && d[k + 2] == 1
  }

  /** No start code lies inside `d`. */
  ghost predicate Free(d: seq<byte>)
  {
    forall k: nat :: !StartAt(d, k)
  }

  /** Where the first start code from `i` on begins, or `|d|`. */
  function FindStart(d: seq<byte>, i: nat): (m: nat)
    requires i <= |d|
    ensures i <= m <= |d|
    decreases |d| - i
  {
    if i == |d| || StartAt(d, i) then i else FindStart(d, i + 1)
  }

  lemma {:induction false} FindStartFinds(d: seq<byte>, i: nat)
    requires i <= |d|
    ensures var m := FindStart(d, i);
            (m < |d| ==> StartAt(d, m)) && forall k: nat :: i <= k < m ==> !StartAt(d, k)
    decreases |d| - i
  {
    if i < |d| && !StartAt(d, i) { FindStartFinds(d, i + 1); }
  }

  lemma FindStartIs(d: seq<byte>, i: nat, m: nat)
    requires i <= m <= |d|
    requires m < |d| ==> StartAt(d, m)
    requires forall k: nat :: i <= k < m ==> !StartAt(d, k)
    ensures FindStart(d, i) == m
  {
    FindStartFinds(d, i);
  }

  /** Drops trailing zeros, keeping at least one byte. */
  function TrimZeros(s: seq<byte>): seq<byte>
  {
    if |s| > 1 && s[|s| - 1] == 0 then TrimZeros(s[..|s| - 1]) else s
  }

  lemma {:induction false} TrimZerosTrims(s: seq<byte>)
    ensures var t := TrimZeros(s);
            t <= s && (s != [] ==> t != []) && (|t| > 1 ==> t[|t| - 1] != 0)
  {
    if |s| > 1 && s[|s| - 1] == 0 { TrimZerosTrims(s[..|s| - 1]); }
  }

  /** The end of the unit that begins at `s`: one zero before the next start code belongs to that code. */
  function UnitEnd(d: seq<byte>, s: nat): (e: nat)
    requires s <= |d|
    ensures s <= e <= FindStart(d, s)
  {
    var m := FindStart(d, s);
    if s < m < |d| && d[m - 1] == 0 then m - 1 else m
  }

  /** The bytes of one unit, trimmed, or nothing when there are none. */
  function UnitBetween(d: seq<byte>, start: nat, end: nat): seq<seq<byte>>
    requires start <= end <= |d|
  {
    if start == end then [] else [TrimZeros(d[start..end])]
  }

  /** The units from index `s`, which is right behind a start code. */
  function UnitsFrom(d: seq<byte>, s: nat): seq<seq<byte>>
    requires s <= |d|
    decreases |d| - s
  {
    var m := FindStart(d, s);
    UnitBetween(d, s, UnitEnd(d, s)) + (if m + 3 <= |d| then UnitsFrom(d, m + 3) else [])
  }

  /** The NAL units of an Annex B stream; bytes before the first start code are ignored. */
  function Units(d: seq<byte>): seq<seq<byte>>
  {
    var m := FindStart(d, 0);
    if m + 3 <= |d| then UnitsFrom(d, m + 3) else []
  }

  // ------------------------------------------------------------------ the scanner

  datatype StartCode = StartCode(offset: nat, scLen: nat)
  {
    function End(): nat { offset + scLen }
  }

  /** The start codes the first loop records from position `i` on. */
  function StartCodes(d: seq<byte>, i: nat): seq<StartCode>
    decreases |d| - i
  {
    if i + 2 >= |d| then []
    else if d[i] == 0 && d[i + 1] == 0 then
      if i + 3 < |d| && d[i + 2] == 0 && d[i + 3] == 1 then [StartCode(i, 4)] + StartCodes(d, i + 4)
      else if d[i + 2] == 1 then [StartCode(i, 3)] + StartCodes(d, i + 3)
      else StartCodes(d, i + 1)
    else StartCodes(d, i + 1)
  }

  /** The first loop: every start code, longest form first. */
  method FindStartCodes(data: seq<byte>) returns (startPositions: seq<StartCode>)
    ensures startPositions == StartCodes(data, 0)
  {
    startPositions := [];
    var i := 0;
    while i < |data| - 2
      invariant 0 <= i
      invariant startPositions + StartCodes(data, i) == StartCodes(data, 0)
    {
      if data[i] == 0 && data[i + 1] == 0 {
        if i + 3 < |data| && data[i + 2] == 0 && data[i + 3] == 1 {
          Reassociate(startPositions, StartCode(i, 4), StartCodes(data, i + 4));
          startPositions := startPositions + [StartCode(i, 4)];
          i := i + 4;
        } else if data[i + 2] == 1 {
          Reassociate(startPositions, StartCode(i, 3), StartCodes(data, i + 3));
          startPositions := startPositions + [StartCode(i, 3)];
          i := i + 3;
        } else {
          i := i + 1;
        }
      } else {
        i := i + 1;
      }
    }
  }

  lemma Reassociate<T>(a: seq<T>, x: T, b: seq<T>)
    ensures (a + [x]) + b == a + ([x] + b)
  {
  }

  lemma Associate<T>(a: seq<T>, b: seq<T>, c: seq<T>)
    ensures (a + b) + c == a + (b + c)
  {
  }

  /** The inner loop: moves the end of a unit back over the padding. */
  method TrimEnd(data: seq<byte>, naluStart: nat, naluEnd: nat) returns (trimmedEnd: nat)
    requires naluStart <= naluEnd <= |data|
    ensures naluStart <= trimmedEnd <= naluEnd
    ensures data[naluStart..trimmedEnd] == TrimZeros(data[naluStart..naluEnd])
  {
    trimmedEnd := naluEnd;
    while trimmedEnd > naluStart + 1 && data[trimmedEnd - 1] == 0
      invariant naluStart <= trimmedEnd <= naluEnd
      invariant TrimZeros(data[naluStart..trimmedEnd]) == TrimZeros(data[naluStart..naluEnd])
    {
      assert data[naluStart..trimmedEnd][..trimmedEnd - naluStart - 1] == data[naluStart..trimmedEnd - 1];
      trimmedEnd := trimmedEnd - 1;
    }
  }

  /** One turn of the second loop: the unit between two positions, when it has any bytes. */
  method CutUnit(data: seq<byte>, naluStart: nat, naluEnd: nat) returns (unit: seq<seq<byte>>)
    requires naluStart <= naluEnd <= |data|
    ensures unit == UnitBetween(data, naluStart, naluEnd)
  {
    var trimmedEnd := TrimEnd(data, naluStart, naluEnd);
    TrimZerosTrims(data[naluStart..naluEnd]);
    if trimmedEnd > naluStart {
      unit := [data[naluStart..trimmedEnd]];
    } else {
      unit := [];
    }
  }

  /** The second loop: cuts the stream at the recorded positions. */
  method CutUnits(data: seq<byte>, startPositions: seq<StartCode>) returns (nalus: seq<seq<byte>>)
    requires forall j :: 0 <= j < |startPositions| ==> LinkAt(data, startPositions, j)
    ensures nalus == UnitsOfCodes(data, startPositions, 0)
  {
    nalus := [];
    for j := 0 to |startPositions|
      invariant nalus + UnitsOfCodes(data, startPositions, j) == UnitsOfCodes(data, startPositions, 0)
    {
      StepCode(data, startPositions, j);
      var naluEnd := if j + 1 < |startPositions| then startPositions[j + 1].offset else |data|;
      var unit := CutUnit(data, startPositions[j].End(), naluEnd);
      Associate(nalus, unit, UnitsOfCodes(data, startPositions, j + 1));
      nalus := nalus + unit;
    }
  }

  method ExtractH264Nalus(data: seq<byte>) returns (nalus: seq<seq<byte>>)
    ensures nalus == Units(data)
  {
    var startPositions := FindStartCodes(data);
    FirstCode(data, 0);
    Links(data, 0);
    nalus := CutUnits(data, startPositions);
  }

  ghost function StartOf(d: seq<byte>, p: seq<StartCode>, j: nat): nat
  {
    if j < |p| then p[j].offset else |d|
  }

  /** The units that start code `j` and the later ones introduce. */
  ghost function UnitsOfCodes(d: seq<byte>, p: seq<StartCode>, j: nat): seq<seq<byte>>
  {
    if j < |p| && p[j].End() <= |d| then UnitsFrom(d, p[j].End()) else []
  }

  /** The first code recorded from `i` on: the first start code, with the zero byte before it if there is one. */
  lemma {:induction false} FirstCode(d: seq<byte>, i: nat)
    requires i <= |d|
    ensures var m, p := FindStart(d, i), StartCodes(d, i);
            if m == |d| then p == []
            else
              && p != []
              && p[0] == (if m > i && d[m - 1] == 0 then StartCode(m - 1, 4) else StartCode(m, 3))
              && p[1..] == StartCodes(d, m + 3)
              && p == StartCodes(d, p[0].offset)
              && m + 3 <= |d|
    decreases |d| - i
  {
    FindStartFinds(d, i);
    if i + 2 < |d| && !StartAt(d, i) {
      if d[i] == 0 && StartAt(d, i + 1) {
      } else {
        FirstCode(d, i + 1);
      }
    } else if i + 2 >= |d| && i < |d| {
      FirstCode(d, i + 1);
    }
  }

  /** Code `j` is followed by the first start code behind it, or by the end of the stream. */
  ghost predicate LinkAt(d: seq<byte>, p: seq<StartCode>, j: nat)
    requires j < |p|
  {
    var s := p[j].End();
    && s <= |d|
    && StartOf(d, p, j + 1) == UnitEnd(d, s)
    && (if FindStart(d, s) + 3 > |d| then j + 1 == |p|
        else j + 1 < |p| && p[j + 1].End() == FindStart(d, s) + 3)
  }

  lemma {:induction false} Links(d: seq<byte>, i: nat)
    requires i <= |d|
    ensures var p := StartCodes(d, i); forall j :: 0 <= j < |p| ==> LinkAt(d, p, j)
    decreases |d| - i
  {
    FirstCode(d, i);
    FindStartFinds(d, i);
    var m, p := FindStart(d, i), StartCodes(d, i);
    if m < |d| {
      var q := p[1..];
      Links(d, m + 3);
      FirstCode(d, m + 3);
      FindStartFinds(d, m + 3);
      assert LinkAt(d, p, 0);
      forall j | 1 <= j < |p| ensures LinkAt(d, p, j)
      {
        assert LinkAt(d, q, j - 1);
      }
    }
  }

  /** One turn of the second loop emits one unit and moves to the next start code. */
  lemma StepCode(d: seq<byte>, p: seq<StartCode>, j: nat)
    requires j < |p| && LinkAt(d, p, j)
    ensures var s, e := p[j].End(), StartOf(d, p, j + 1);
            && s <= e <= |d|
            && UnitsOfCodes(d, p, j) == UnitBetween(d, s, e) + UnitsOfCodes(d, p, j + 1)
  {
  }

  // ------------------------------------------------------------------ what the units are

  /** What Annex B lets an encoder put between start codes. */
  ghost predicate IsNal(n: seq<byte>)
  {
    n != [] && n[|n| - 1] != 0 && Free(n)
  }

  /** A unit with the number of zero bytes in front of its three-byte start code. */
  datatype Framed = Framed(zeros: nat, nal: seq<byte>)

  function Nals(units: seq<Framed>): seq<seq<byte>>
  {
    if units == [] then [] else [units[0].nal] + Nals(units[1..])
  }

  /** Annex B framing with any zero padding, `tail` zeros at the end. */
  function Frame(units: seq<Framed>, tail: nat): seq<byte>
  {
    if units == [] then Zeros(tail)
    else Zeros(units[0].zeros) + [0, 0, 1] + (units[0].nal + Frame(units[1..], tail))
  }

  /** Behind a unit and its padding, the next start code is the first one. */
  lemma FindBehind(d: seq<byte>, s: nat, n: seq<byte>, z: nat)
    requires s + |n| + z <= |d| && d[s..s + |n|] == n
    requires n == [] || (n[|n| - 1] != 0 && Free(n))
    requires forall k :: s + |n| <= k < s + |n| + z ==> d[k] == 0
    requires s + |n| + z == |d| || StartAt(d, s + |n| + z)
    ensures FindStart(d, s) == s + |n| + z
  {
    forall k: nat | s <= k < s + |n| + z ensures !StartAt(d, k)
    {
      if k + 2 < s + |n| {
        assert !StartAt(n, k - s);
        assert d[k] == n[k - s] && d[k + 1] == n[k + 1 - s] && d[k + 2] == n[k + 2 - s];
      } else if n != [] {
        assert d[s + |n| - 1] == n[|n| - 1];
      }
    }
    FindStartIs(d, s, s + |n| + z);
  }

  lemma {:induction false} TrimOf(n: seq<byte>, s: seq<byte>)
    requires n != [] && n[|n| - 1] != 0 && n <= s
    requires forall k :: |n| <= k < |s| ==> s[k] == 0
    ensures TrimZeros(s) == n
    decreases |s|
  {
    if |s| > |n| {
      TrimOf(n, s[..|s| - 1]);
    } else {
      assert s == n;
    }
  }

  /** The unit that was framed is the unit that comes out. */
  lemma UnitBack(d: seq<byte>, s: nat, n: seq<byte>, z: nat)
    requires IsNal(n)
    requires s + |n| + z <= |d| && d[s..s + |n|] == n
    requires forall k :: s + |n| <= k < s + |n| + z ==> d[k] == 0
    requires s + |n| + z == |d| || StartAt(d, s + |n| + z)
    ensures FindStart(d, s) == s + |n| + z && UnitBetween(d, s, UnitEnd(d, s)) == [n]
  {
    FindBehind(d, s, n, z);
    assert d[s + |n| - 1] == n[|n| - 1];
    var e := UnitEnd(d, s);
    assert s + |n| <= e;
    var u := d[s..e];
    assert u[..|n|] == n;
    TrimOf(n, u);
  }

  /** Padding, then a start code, then the rest: the parts of a frame by index. */
  lemma FrameParts(d: seq<byte>, i: nat, z: nat, rest: seq<byte>)
    requires i <= |d| && d[i..] == Zeros(z) + [0, 0, 1] + rest
    ensures i + z + 3 <= |d| && d[i + z + 3..] == rest && StartAt(d, i + z)
    ensures forall k :: i <= k < i + z ==> d[k] == 0
  {
    var f := d[i..];
    assert f[z + 3..] == rest;
    assert d[i + z + 3..] == f[z + 3..];
    assert d[i + z] == f[z] && d[i + z + 1] == f[z + 1] && d[i + z + 2] == f[z + 2];
    assert forall k :: i <= k < i + z ==> d[k] == f[k - i];
  }

  lemma {:induction false} FrameRoundTripFrom(d: seq<byte>, s: nat, n: seq<byte>, units: seq<Framed>, tail: nat)
    requires s <= |d| && d[s..] == n + Frame(units, tail)
    requires IsNal(n)
    requires forall u :: u in units ==> IsNal(u.nal)
    ensures UnitsFrom(d, s) == [n] + Nals(units)
    decreases |units|
  {
    hide FindStart, UnitEnd, UnitBetween, TrimZeros, IsNal, StartAt;
    var i := s + |n|;
    assert d[s..i] == d[s..][..|n|] == n;
    assert d[i..] == d[s..][|n|..] == Frame(units, tail);
    if units == [] {
      assert forall k :: i <= k < |d| ==> d[k] == d[i..][k - i];
      UnitBack(d, s, n, tail);
    } else {
      var rest := units[0].nal + Frame(units[1..], tail);
      FrameParts(d, i, units[0].zeros, rest);
      UnitBack(d, s, n, units[0].zeros);
      FrameRoundTripFrom(d, i + units[0].zeros + 3, units[0].nal, units[1..], tail);
    }
  }

  /** Scanning undoes framing: every unit comes back, in order, with all padding gone. */
  lemma FrameRoundTrip(units: seq<Framed>, tail: nat)
    requires forall u :: u in units ==> IsNal(u.nal)
    ensures Units(Frame(units, tail)) == Nals(units)
  {
    var d := Frame(units, tail);
    assert d[0..] == d;
    if units == [] {
      FindBehind(d, 0, [], tail);
    } else {
      FrameParts(d, 0, units[0].zeros, units[0].nal + Frame(units[1..], tail));
      FindBehind(d, 0, [], units[0].zeros);
      FrameRoundTripFrom(d, units[0].zeros + 3, units[0].nal, units[1..], tail);
    }
  }

  ghost predicate Clean(n: seq<byte>)
  {
    n != [] && Free(n) && (|n| > 1 ==> n[|n| - 1] != 0)
  }

  /** A slice that ends at the first start code holds none. */
  lemma TrimmedIsClean(d: seq<byte>, s: nat, e: nat)
    requires s < e <= |d| && e <= FindStart(d, s)
    ensures Clean(TrimZeros(d[s..e]))
  {
    FindStartFinds(d, s);
    var n := TrimZeros(d[s..e]);
    TrimZerosTrims(d[s..e]);
    forall k: nat ensures !StartAt(n, k)
    {
      assert s + k < e ==> !StartAt(d, s + k);
    }
  }

  lemma {:induction false} UnitsFromAreClean(d: seq<byte>, s: nat)
    requires s <= |d|
    ensures forall n :: n in UnitsFrom(d, s) ==> Clean(n)
    decreases |d| - s
  {
    var m, e := FindStart(d, s), UnitEnd(d, s);
    if s < e { TrimmedIsClean(d, s, e); }
    if m + 3 <= |d| { UnitsFromAreClean(d, m + 3); }
  }

  /** On any input at all, no unit is empty, holds a start code, or ends in padding unless it is one byte. */
  lemma NoUnitHoldsAStartCode(d: seq<byte>)
    ensures forall n :: n in Units(d) ==> Clean(n)
  {
    var m := FindStart(d, 0);
    if m + 3 <= |d| { UnitsFromAreClean(d, m + 3); }
  }

  lemma {:induction false} NalsMembers(units: seq<Framed>, u: Framed)
    requires u in units
    ensures u.nal in Nals(units)
  {
    if units[0] != u { NalsMembers(units[1..], u); }
  }

  /** Re-framing what a scan returned, with any padding, and scanning again changes nothing,
      unless a unit was a lone zero byte. */
  lemma RescanIsStable(d: seq<byte>, units: seq<Framed>, tail: nat)
    requires [0] !in Units(d)
    requires Nals(units) == Units(d)
    ensures Units(Frame(units, tail)) == Units(d)
  {
    NoUnitHoldsAStartCode(d);
    forall u | u in units ensures IsNal(u.nal)
    {
      NalsMembers(units, u);
      var n := u.nal;
      assert |n| == 1 ==> n == [n[0]];
    }
    FrameRoundTrip(units, tail);
  }
}
