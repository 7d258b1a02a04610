/** What the duration of a video frame is, said of the time stamps alone. */
module FrameTiming {
  import opened Transmuxer

  /** The distances between neighbours. */
  function Gaps(a: seq<int>): seq<int>
  {
    if a == [] then [] else seq(|a| - 1, i requires 0 <= i < |a| - 1 => a[i + 1] - a[i])
  }

  function Below(s: seq<int>, g: int): nat
  {
    if s == [] then 0 else (if s[0] < g then 1 else 0) + Below(s[1..], g)
  }

  function AtMost(s: seq<int>, g: int): nat
  {
    if s == [] then 0 else (if s[0] <= g then 1 else 0) + AtMost(s[1..], g)
  }

  /** Not more than half of the numbers are smaller, and more than half are at most this one. */
  predicate Middle(s: seq<int>, g: int)
  {
    g in s && Below(s, g) <= |s| / 2 < AtMost(s, g)
  }

  predicate Sorted(a: seq<int>)
  {
    forall i, j :: 0 <= i < j < |a| ==> a[i] <= a[j]
  }

  lemma {:induction false} AscendingIsSorted(a: seq<int>)
    requires Ascending(a)
    ensures Sorted(a)
  {
    if |a| >= 2 {
      AscendingIsSorted(a[1..]);
      forall i, j | 0 <= i < j < |a| ensures a[i] <= a[j] {
        if i == 0 && j > 1 { assert a[1..][0] <= a[1..][j - 1]; } else if i > 0 { assert a[1..][i - 1] <= a[1..][j - 1]; }
      }
    }
  }

  /** There is one ascending arrangement. */
  lemma {:induction false} SortedOnce(a: seq<int>, b: seq<int>)
    requires Sorted(a) && Sorted(b) && multiset(a) == multiset(b)
    ensures a == b
    decreases |a|
  {
    hide Sorted;
    SameLength(a, b);
    if a != [] {
      FirstSame(a, b);
      FirstIsLeast(a, a[0]);
      FirstIsLeast(b, b[0]);
      RestOf(a);
      RestOf(b);
      SortedOnce(a[1..], b[1..]);
      assert a == [a[0]] + a[1..] && b == [b[0]] + b[1..];
    }
  }

  lemma SameLength(a: seq<int>, b: seq<int>)
    requires multiset(a) == multiset(b)
    ensures |a| == |b|
  {
    assert |multiset(a)| == |a| && |multiset(b)| == |b|;
  }

  lemma FirstSame(a: seq<int>, b: seq<int>)
    requires Sorted(a) && Sorted(b) && multiset(a) == multiset(b) && a != [] && b != []
    ensures a[0] == b[0]
  {
    hide Sorted;
    assert a[0] in multiset(a) && b[0] in multiset(b);
    assert a[0] in b && b[0] in a;
    FirstIsLeast(a, b[0]);
    FirstIsLeast(b, a[0]);
  }

  lemma FirstIsLeast(a: seq<int>, x: int)
    requires Sorted(a) && x in a
    ensures a[0] <= x && Sorted(a[1..])
  {
  }

  lemma RestOf(a: seq<int>)
    requires a != []
    ensures multiset(a[1..]) == multiset(a) - multiset{a[0]}
  {
    assert a == [a[0]] + a[1..];
  }

  lemma {:induction false} DeltasAreGaps(a: seq<int>)
    ensures Deltas(a) == Gaps(a)
  {
    if |a| >= 2 {
      DeltasAreGaps(a[1..]);
      assert Gaps(a) == [a[1] - a[0]] + Gaps(a[1..]);
    }
  }

  // ------------------------------------------------------------------ the middle one

  lemma {:induction false} InsertCounts(x: int, s: seq<int>, g: int)
    ensures Below(Insert(x, s), g) == Below([x] + s, g) && AtMost(Insert(x, s), g) == AtMost([x] + s, g)
  {
    assert ([x] + s)[1..] == s;
    if s != [] && x > s[0] {
      InsertCounts(x, s[1..], g);
      var r := Insert(x, s[1..]);
      assert ([s[0]] + r)[1..] == r && ([x] + s[1..])[1..] == s[1..];
    }
  }

  lemma {:induction false} SortCounts(s: seq<int>, g: int)
    ensures Below(Sort(s), g) == Below(s, g) && AtMost(Sort(s), g) == AtMost(s, g)
  {
    if s != [] {
      SortCounts(s[1..], g);
      InsertCounts(s[0], Sort(s[1..]), g);
      var r := Sort(s[1..]);
      assert ([s[0]] + r)[1..] == r;
    }
  }

  /** In an ascending list at most `k` are smaller than the one at `k`, and more than `k` are at most that. */
  lemma {:induction false} SortedCounts(a: seq<int>, k: nat)
    requires Sorted(a) && k < |a|
    ensures Below(a, a[k]) <= k < AtMost(a, a[k])
    decreases |a|
  {
    if k > 0 {
      SortedCounts(a[1..], k - 1);
    } else {
      NoneBelow(a, a[0]);
    }
  }

  lemma {:induction false} NoneBelow(a: seq<int>, g: int)
    requires forall i :: 0 <= i < |a| ==> g <= a[i]
    ensures Below(a, g) == 0
  {
    if a != [] { NoneBelow(a[1..], g); }
  }

  lemma {:induction false} SmallerCounts(s: seq<int>, g: int, h: int)
    requires g < h
    ensures AtMost(s, g) <= Below(s, h)
  {
    if s != [] { SmallerCounts(s[1..], g, h); }
  }

  /** No two numbers are in the middle. */
  lemma MiddleOnce(s: seq<int>, g: int, h: int)
    requires Middle(s, g) && Middle(s, h)
    ensures g == h
  {
    if g < h { SmallerCounts(s, g, h); }
    if h < g { SmallerCounts(s, h, g); }
  }

  /** And one is. */
  lemma SortedMiddle(s: seq<int>)
    requires s != []
    ensures |Sort(s)| == |s| && Middle(s, Sort(s)[|s| / 2])
  {
    hide Sort, Below, AtMost;
    var o := Sort(s);
    SortLength(s);
    SortSorts(s);
    AscendingIsSorted(o);
    var g := o[|s| / 2];
    SortedCounts(o, |s| / 2);
    SortCounts(s, g);
    assert g in multiset(o);
  }

  /** The duration of a frame is the middle gap of the time stamps in ascending order, or 3754 when that is 0. */
  lemma FrameDurationIs(pts: seq<int>, ascending: seq<int>)
    requires |pts| >= 2 && Sorted(ascending) && multiset(ascending) == multiset(pts)
    ensures exists g :: Middle(Gaps(ascending), g)
    ensures forall g :: Middle(Gaps(ascending), g) ==> FrameDuration(pts) == if g == 0 then 3754 else g
  {
    hide Sort, Middle, Deltas;
    SortSorts(pts);
    AscendingIsSorted(Sort(pts));
    SortedOnce(ascending, Sort(pts));
    DeltasAreGaps(ascending);
    assert |ascending| == |multiset(ascending)| == |multiset(pts)| == |pts|;
    var gaps := Gaps(ascending);
    SortedMiddle(gaps);
    forall g | Middle(gaps, g) ensures FrameDuration(pts) == if g == 0 then 3754 else g {
      MiddleOnce(gaps, g, Sort(gaps)[|gaps| / 2]);
    }
  }

  /** With fewer than two time stamps there is nothing to go by. */
  lemma FewStamps(pts: seq<int>)
    requires |pts| < 2
    ensures FrameDuration(pts) == 3754
  {
    SortLength(pts);
  }

  lemma {:induction false} AllAtMost(s: seq<int>, d: int)
    requires forall x :: x in s ==> x == d
    ensures Below(s, d) == 0 && AtMost(s, d) == |s|
  {
    if s != [] {
      assert s[0] in s && forall x :: x in s[1..] ==> x in s;
      AllAtMost(s[1..], d);
    }
  }

  lemma EvenStep(b: int, d: int, i: int)
    ensures b + (i + 1) * d - (b + i * d) == d
  {
  }

  lemma EvenOrder(b: int, d: int, i: int, j: int)
    requires i <= j && d > 0
    ensures b + i * d <= b + j * d
  {
  }

  /** Evenly spaced time stamps, in whatever order they come. */
  lemma EvenStamps(pts: seq<int>, b: int, d: int)
    requires |pts| >= 2 && d > 0 && multiset(pts) == multiset(seq(|pts|, i => b + i * d))
    ensures FrameDuration(pts) == d
  {
    hide FrameDuration, Below, AtMost;
    var a := seq(|pts|, i => b + i * d);
    forall i, j | 0 <= i < j < |a| ensures a[i] <= a[j] { EvenOrder(b, d, i, j); }
    var gaps := Gaps(a);
    forall i | 0 <= i < |gaps| ensures gaps[i] == d { EvenStep(b, d, i); }
    AllAtMost(gaps, d);
    assert gaps[0] in gaps;
    FrameDurationIs(pts, a);
  }
}
