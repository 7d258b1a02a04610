/**
  * ISO 8601 durations, in seconds, printed and read. Every unit has a fixed size. A duration is an
  * exact number here; the rounding to thousandths of a second that printing does is kept.
  */
module Duration {
  import opened Strings
  import opened Wrappers

  const MINUTE := 60
  const HOUR := 3600
  const DAY := 86400
  const MONTH := 2592000
  const YEAR := 31536000

  /** The designators in the order they are read, the `T` among them. */
  const LETTERS := "YMDTHMS"
  const UNITS := [YEAR, MONTH, DAY, 0, HOUR, MINUTE, 1]

  // ------------------------------------------------------------------ reading

  predicate IsLetter(c: Option<char>, letter: char)
  {
    c == Some(letter) || ('A' <= letter <= 'Z' && c == Some((letter as int + 32) as char))
  }

  /** How many characters at the start of `s` are digits, and a point with digits behind them. */
  function NumberLength(s: string): (n: nat)
    ensures n <= |s|
  {
    var n := RunEnd(s, 0, IsDigit);
    if n > 0 && CharAt(s, n) == Some('.') then RunEnd(s, n + 1, IsDigit) else n
  }

  /** How many characters at the start of `s` are the `k`th optional group. */
  function GroupLength(s: string, k: nat): (n: nat)
    requires k < 7
    ensures n <= |s|
  {
    if LETTERS[k] == 'T' then
      if IsLetter(CharAt(s, 0), 'T') then 1 else 0
    else
      var n := NumberLength(s);
      if n == 0 then 0
      else if IsLetter(CharAt(s, n), LETTERS[k]) then n + 1
      else if LETTERS[k] == 'S' then n
      else 0
  }

  function Power10(n: nat): (p: nat)
    ensures p > 0
  {
    if n == 0 then 1 else 10 * Power10(n - 1)
  }

  function Ratio(a: nat, b: nat): real
    requires b > 0
  {
    a as real / b as real
  }

  /** What `parseFloat` reads: the number at the start, nothing being 0. */
  function Amount(s: string): real
  {
    var n := RunEnd(s, 0, IsDigit);
    RunHolds(s, 0, IsDigit);
    var whole := Number(s[..n]) as real;
    if n < |s| && s[n] == '.' then
      var m := RunEnd(s, n + 1, IsDigit);
      RunHolds(s, n + 1, IsDigit);
      whole + Ratio(Number(s[n + 1..m]), Power10(m - n - 1))
    else whole
  }

  lemma {:induction false} RunHolds(s: string, pos: nat, p: char -> bool)
    requires pos <= |s|
    ensures var n := RunEnd(s, pos, p);
      && (forall k :: pos <= k < n ==> p(s[k]))
      && (forall c :: c in s[pos..n] ==> p(c))
      && (n < |s| ==> !p(s[n]))
    decreases |s| - pos
  {
    if pos < |s| && p(s[pos]) {
      RunHolds(s, pos + 1, p);
      var n := RunEnd(s, pos, p);
      assert s[pos..n] == [s[pos]] + s[pos + 1..n];
    }
  }

  /** A run does not go over into text it cannot begin with. */
  lemma RunStays(s: string, pos: nat, p: char -> bool, rest: string)
    requires pos <= |s| && (rest != [] ==> !p(rest[0]))
    ensures RunEnd(s + rest, pos, p) == RunEnd(s, pos, p)
  {
    RunHolds(s, pos, p);
    var n := RunEnd(s, pos, p);
    if n == |s| && rest != [] { assert (s + rest)[n] == rest[0]; }
    RunEndIs(s + rest, pos, p, n);
  }

  /**
    * The amounts of the groups from the `k`th on when together they are all of `s`. An optional
    * group is taken if what follows it can still be read and is left out otherwise.
    */
  function Groups(s: string, k: nat): (r: Option<seq<real>>)
    requires k <= 7
    ensures r.Some? ==> |r.value| == 7 - k
    decreases 7 - k
  {
    if k == 7 then
      if s == [] then Some([]) else None
    else
      var n := GroupLength(s, k);
      var taken := if n > 0 then Groups(s[n..], k + 1) else None;
      if taken.Some? then Some([Amount(s[..n])] + taken.value)
      else
        match Groups(s, k + 1)
        case Some(rest) => Some([0.0] + rest)
        case None => None
  }

  function Total(amounts: seq<real>, k: nat): real
    requires k <= 7 && |amounts| == 7 - k
    decreases 7 - k
  {
    if k == 7 then 0.0 else amounts[0] * UNITS[k] as real + Total(amounts[1..], k + 1)
  }

  /** The duration a text stands for, or nothing when it is not one. */
  function Parsed(s: string): Option<real>
  {
    var negative := CharAt(s, 0) == Some('-');
    var s := if negative then s[1..] else s;
    var s := if IsLetter(CharAt(s, 0), 'P') then s[1..] else s;
    match Groups(s, 0)
    case None => None
    case Some(amounts) => Some(if negative then -Total(amounts, 0) else Total(amounts, 0))
  }

  // ------------------------------------------------------------------ printing

  function Whole(x: real, unit: int): int
    requires unit > 0
  {
    (x / unit as real).Floor
  }

  /** The remainder of a number that is not negative. */
  function Mod(x: real, unit: int): real
    requires unit > 0
  {
    x - (Whole(x, unit) * unit) as real
  }

  /** A number of thousandths, the nearest one, a half counting upwards. */
  function Thousandths(x: real): (n: int)
    ensures x >= 0.0 ==> n >= 0
  {
    (x * 1000.0 + 0.5).Floor
  }

  function WithoutZeros(s: string): string
  {
    if s != [] && s[|s| - 1] == '0' then WithoutZeros(s[..|s| - 1]) else s
  }

  function ThreeDigits(n: nat): string
    requires n < 1000
  {
    [Digit(n / 100)] + [Digit(n / 10 % 10)] + [Digit(n % 10)]
  }

  /** So many thousandths in decimals. */
  function Decimal(n: nat): string
  {
    if n % 1000 == 0 then Digits(n / 1000)
    else Digits(n / 1000) + "." + WithoutZeros(ThreeDigits(n % 1000))
  }

  function Named(n: int, letter: char): string
  {
    if n > 0 then Digits(n) + [letter] else []
  }

  function SecondsText(seconds: real): string
    requires seconds >= 0.0
  {
    if seconds > 0.0 then Decimal(Thousandths(seconds)) + "S" else []
  }

  /** The parts for the designators; a `T` stands where a time part follows. */
  function Arranged(y: string, m: string, d: string, h: string, i: string, s: string): (r: seq<string>)
    ensures |r| == 7
  {
    if h + i + s != [] then [y, m, d, "T", h, i, s]
    else if y + m + d != [] then [y, m, d, [], [], [], []]
    else [[], [], [], "T", [], [], "0S"]
  }

  /** What is printed for each designator. */
  function Texts(abs: real): (r: seq<string>)
    requires abs >= 0.0
    ensures |r| == 7
  {
    var rest := Mod(abs, YEAR);
    ModRange(rest, MINUTE);
    Arranged(
      Named(Whole(abs, YEAR), 'Y'),
      Named(Whole(rest, MONTH), 'M'),
      Named(Whole(Mod(rest, MONTH), DAY), 'D'),
      Named(Whole(Mod(rest, DAY), HOUR), 'H'),
      Named(Whole(Mod(rest, HOUR), MINUTE), 'M'),
      SecondsText(Mod(rest, MINUTE)))
  }

  function Join(texts: seq<string>): string
  {
    if texts == [] then [] else texts[0] + Join(texts[1..])
  }

  function Abs(x: real): (r: real)
    ensures r >= 0.0
  {
    if x < 0.0 then -x else x
  }

  function Printed(value: real): string
  {
    (if value < 0.0 then "-" else "") + "P" + Join(Texts(Abs(value)))
  }

  lemma ModRange(x: real, unit: int)
    requires unit > 0
    ensures 0.0 <= Mod(x, unit) < unit as real
    ensures x >= 0.0 ==> Whole(x, unit) >= 0
  {
    hide Whole;
    WholeIs(x, unit);
    Remainder(x, unit as real, Whole(x, unit) as real, x / unit as real);
    assert (Whole(x, unit) * unit) as real == Whole(x, unit) as real * unit as real;
  }

  lemma WholeIs(x: real, unit: int)
    requires unit > 0
    ensures Whole(x, unit) as real <= x / unit as real < Whole(x, unit) as real + 1.0
  {
  }

  lemma Remainder(x: real, u: real, n: real, q: real)
    requires u > 0.0 && q * u == x && n <= q < n + 1.0
    ensures 0.0 <= x - n * u < u
    ensures x >= 0.0 ==> n > -1.0
  {
    var f := q - n;
    Product(q, f, n, u);
    if q < 0.0 { assert (-q) * u > 0.0; }
    Smaller(f, u);
    assert x - n * u == f * u;
    assert f * u < u;
  }

  lemma Product(q: real, f: real, n: real, u: real)
    requires q == f + n
    ensures q * u == f * u + n * u
  {
  }

  lemma Smaller(f: real, u: real)
    requires 0.0 <= f < 1.0 && u > 0.0
    ensures 0.0 <= f * u < u
  {
    assert (1.0 - f) * u > 0.0;
    Product(1.0, 1.0 - f, f, u);
  }

  /** Prints a duration, leaving out the designators that are zero. */
  method Stringify(value: real) returns (s: string)
    ensures s == Printed(value)
  {
    hide Digits, Decimal, Whole, Mod, Arranged, Join, Thousandths;
    var abs := if value < 0.0 then -value else value;
    var years := Whole(abs, YEAR);
    abs := abs - (years * YEAR) as real;
    ModIs(Abs(value), YEAR);
    ModRange(abs, MINUTE);
    var months := Whole(abs, MONTH);
    var days := Whole(Mod(abs, MONTH), DAY);
    var hours := Whole(Mod(abs, DAY), HOUR);
    var minutes := Whole(Mod(abs, HOUR), MINUTE);
    var seconds := Mod(abs, MINUTE);
    var date := "";
    if years > 0 { date := date + (Digits(years) + "Y"); }
    if months > 0 { date := date + (Digits(months) + "M"); }
    if days > 0 { date := date + (Digits(days) + "D"); }
    var time := "";
    if hours > 0 { time := time + (Digits(hours) + "H"); }
    if minutes > 0 { time := time + (Digits(minutes) + "M"); }
    if seconds > 0.0 { time := time + (Decimal(Thousandths(seconds)) + "S"); }
    assert date == Named(years, 'Y') + Named(months, 'M') + Named(days, 'D');
    assert time == Named(hours, 'H') + Named(minutes, 'M') + SecondsText(seconds);
    JoinArranged(Named(years, 'Y'), Named(months, 'M'), Named(days, 'D'),
                 Named(hours, 'H'), Named(minutes, 'M'), SecondsText(seconds));
    if date == "" && time == "" { time := "0S"; }
    s := (if value < 0.0 then "-" else "") + "P" + (date + if time != "" then "T" + time else "");
  }

  lemma ModIs(x: real, unit: int)
    requires unit > 0
    ensures Mod(x, unit) == x - (Whole(x, unit) * unit) as real
  {
  }

  lemma JoinArranged(y: string, m: string, d: string, h: string, i: string, s: string)
    ensures var date, time := y + m + d, h + i + s;
      var time := if date == "" && time == "" then "0S" else time;
      Join(Arranged(y, m, d, h, i, s)) == date + if time != "" then "T" + time else ""
  {
    JoinSeven(Arranged(y, m, d, h, i, s));
  }

  lemma JoinSeven(t: seq<string>)
    requires |t| == 7
    ensures Join(t) == (t[0] + t[1] + t[2]) + (t[3] + (t[4] + t[5] + t[6]))
  {
    assert t[1..][1..] == t[2..] && t[2..][1..] == t[3..] && t[3..][1..] == t[4..];
    assert t[4..][1..] == t[5..] && t[5..][1..] == t[6..] && t[6..][1..] == [];
    assert Join(t[6..]) == t[6];
    assert Join(t[5..]) == t[5] + t[6];
    assert Join(t[4..]) == t[4] + t[5] + t[6];
    assert Join(t[3..]) == t[3] + (t[4] + t[5] + t[6]);
    assert Join(t[2..]) == t[2] + (t[3] + (t[4] + t[5] + t[6]));
    assert Join(t[1..]) == t[1] + t[2] + (t[3] + (t[4] + t[5] + t[6]));
  }

  // ------------------------------------------------------------------ lexical durations

  /** Digits, with a point and more digits if a fraction is allowed. */
  predicate IsNumeral(s: string, fraction: bool)
  {
    var n := RunEnd(s, 0, IsDigit);
    && n > 0
    && (n == |s| || (fraction && s[n] == '.' && n + 1 < |s| && RunEnd(s, n + 1, IsDigit) == |s|))
  }

  /** What may stand for the `k`th designator; only seconds have fractions. */
  predicate IsPart(t: string, k: nat)
    requires k < 7
  {
    || t == []
    || (LETTERS[k] == 'T' && t == "T")
    || (LETTERS[k] != 'T' && t[|t| - 1] == LETTERS[k] && IsNumeral(t[..|t| - 1], k == 6))
  }

  /** Parts of which at least one is a number, and a `T` just when a time part follows. */
  ghost predicate AreParts(texts: seq<string>)
  {
    && |texts| == 7
    && (forall k: nat :: k < 7 ==> IsPart(texts[k], k))
    && (texts[3] != [] <==> texts[4] + texts[5] + texts[6] != [])
    && (exists k: nat :: k < 7 && k != 3 && texts[k] != [])
  }

  /** The lexical form of section 3.2.6.1 of XML Schema Part 2. */
  ghost predicate IsLexical(s: string)
  {
    exists texts: seq<string> :: AreParts(texts) && (s == "P" + Join(texts) || s == "-P" + Join(texts))
  }

  function Value(t: string): real
  {
    if t == [] then 0.0 else Amount(t)
  }

  function Values(texts: seq<string>): (r: seq<real>)
    ensures |r| == |texts|
  {
    seq(|texts|, k requires 0 <= k < |texts| => Value(texts[k]))
  }

  lemma NumeralEnds(num: string, fraction: bool, rest: string)
    requires IsNumeral(num, fraction)
    requires rest != [] && !IsDigit(rest[0]) && rest[0] != '.'
    ensures NumberLength(num + rest) == |num| && num != []
    ensures Amount(num + rest) == Amount(num)
  {
    hide RunEnd, Number, Power10;
    var s := num + rest;
    var n := RunEnd(num, 0, IsDigit);
    RunHolds(num, 0, IsDigit);
    RunHolds(s, 0, IsDigit);
    RunStays(num, 0, IsDigit, rest);
    assert s[..n] == num[..n];
    if n == |num| {
      assert s[n] == rest[0];
    } else {
      assert s[n] == '.';
      var m := |num|;
      RunStays(num, n + 1, IsDigit, rest);
      RunHolds(num, n + 1, IsDigit);
      RunHolds(s, n + 1, IsDigit);
      assert s[n + 1..m] == num[n + 1..m];
    }
  }

  /** A part is exactly the group read where it stands, and its amount is read from it. */
  lemma PartBack(t: string, k: nat, rest: string)
    requires k < 7 && t != [] && IsPart(t, k)
    ensures GroupLength(t + rest, k) == |t|
  {
    hide NumberLength, Amount, RunEnd;
    if LETTERS[k] != 'T' {
      var num := t[..|t| - 1];
      var more := [LETTERS[k]] + rest;
      assert t + rest == num + more;
      NumeralEnds(num, k == 6, more);
      assert (num + more)[|num|] == more[0];
    }
  }

  /** Parts that come later are not taken for the `k`th. */
  lemma {:induction false} OthersLater(texts: seq<string>, k: nat, j: nat)
    requires AreParts(texts) && k < j <= 7
    requires forall i :: k <= i < j ==> texts[i] == []
    ensures GroupLength(Join(texts[j..]), k) == 0
    decreases 7 - j
  {
    hide NumberLength, IsNumeral;
    if j == 7 {
      assert texts[j..] == [];
      assert NumberLength([]) == 0 by { NoNumber([]); }
    } else {
      assert texts[j..][1..] == texts[j + 1..];
      var t, rest := texts[j], Join(texts[j + 1..]);
      assert Join(texts[j..]) == t + rest;
      if t == [] {
        OthersLater(texts, k, j + 1);
        assert t + rest == rest;
      } else {
        assert IsPart(t, j);
        assert k >= 3 || j <= 3;
        LaterPart(t, k, j, rest);
      }
    }
  }

  lemma NoNumber(s: string)
    requires s == [] || !IsDigit(s[0])
    ensures NumberLength(s) == 0
  {
  }

  lemma LaterPart(t: string, k: nat, j: nat, rest: string)
    requires k < j < 7 && t != [] && IsPart(t, j) && (k >= 3 || j <= 3)
    ensures GroupLength(t + rest, k) == 0
  {
    hide NumberLength, Amount, IsNumeral;
    var s := t + rest;
    if LETTERS[j] == 'T' {
      NoNumber(s);
    } else {
      var num := t[..|t| - 1];
      var more := [LETTERS[j]] + rest;
      assert s == num + more;
      NumeralEnds(num, j == 6, more);
      NumeralStarts(num, j == 6);
      assert s[|num|] == more[0];
    }
  }

  lemma NumeralStarts(num: string, fraction: bool)
    requires IsNumeral(num, fraction)
    ensures IsDigit(num[0])
  {
  }

  /** Parts are read back as their amounts. */
  lemma {:induction false} GroupsBack(texts: seq<string>, k: nat)
    requires AreParts(texts) && k <= 7
    ensures Groups(Join(texts[k..]), k) == Some(Values(texts[k..]))
    decreases 7 - k
  {
    hide GroupLength, Amount, IsPart, IsNumeral;
    if k == 7 {
      assert texts[k..] == [];
    } else {
      assert texts[k..][1..] == texts[k + 1..];
      var t, rest := texts[k], Join(texts[k + 1..]);
      var s := Join(texts[k..]);
      assert s == t + rest;
      GroupsBack(texts, k + 1);
      if t == [] {
        assert s == rest;
        OthersLater(texts, k, k + 1);
        assert Values(texts[k..]) == [0.0] + Values(texts[k + 1..]);
      } else {
        PartBack(t, k, rest);
        assert s[..|t|] == t && s[|t|..] == rest;
        assert Values(texts[k..]) == [Amount(t)] + Values(texts[k + 1..]);
      }
    }
  }

  /** Every lexical duration is read as the sum of its parts. */
  lemma LexicalRead(texts: seq<string>)
    requires AreParts(texts)
    ensures Parsed("P" + Join(texts)) == Some(Total(Values(texts), 0))
    ensures Parsed("-P" + Join(texts)) == Some(-Total(Values(texts), 0))
  {
    hide Groups, Join, Values, Total, AreParts;
    GroupsBack(texts, 0);
    assert texts[0..] == texts;
    var j := Join(texts);
    assert ("P" + j)[1..] == j;
    assert ("-P" + j)[1..] == "P" + j;
  }

  // ------------------------------------------------------------------ what is read at all

  const LOWER := "ymdthms"

  /** Digits, and perhaps a point with digits behind it, or none. */
  predicate IsNumber(s: string)
  {
    exists n | 0 < n <= |s| :: NumberTo(s, n)
  }

  predicate NumberTo(s: string, n: nat)
    requires 0 < n <= |s|
  {
    && (forall c :: c in s[..n] ==> IsDigit(c))
    && (n == |s| || (s[n] == '.' && forall c :: c in s[n + 1..] ==> IsDigit(c)))
  }

  /** What may stand for the `k`th designator, which may be in lower case; the last one may be missing. */
  predicate IsGroup(t: string, k: nat)
    requires k < 7
  {
    || t == ""
    || (k == 3 && (t == "T" || t == "t"))
    || (k != 3 && (t[|t| - 1] == LETTERS[k] || t[|t| - 1] == LOWER[k]) && IsNumber(t[..|t| - 1]))
    || (k == 6 && IsNumber(t))
  }

  predicate AreGroups(parts: seq<string>, k: nat)
    requires k <= 7
  {
    |parts| == 7 - k && forall i :: 0 <= i < |parts| ==> IsGroup(parts[i], k + i)
  }

  lemma LetterCases(k: nat, c: char)
    requires k < 7
    ensures IsLetter(Some(c), LETTERS[k]) <==> c == LETTERS[k] || c == LOWER[k]
    ensures !IsDigit(LETTERS[k]) && !IsDigit(LOWER[k]) && LETTERS[k] != '.' && LOWER[k] != '.' && (LETTERS[k] == 'T' <==> k == 3)
    ensures LETTERS[k] == 'S' <==> k == 6
  {
  }

  /** The number at the start of a text ends where something else begins. */
  lemma NumberEnds(num: string, rest: string)
    requires IsNumber(num) && (rest == "" || (!IsDigit(rest[0]) && rest[0] != '.'))
    ensures NumberLength(num + rest) == |num|
  {
    hide RunEnd;
    var s := num + rest;
    var n :| 0 < n <= |num| && NumberTo(num, n);
    assert num[..n] + (num[n..] + rest) == s && s[0..] == s;
    if n < |num| {
      assert (num[n..] + rest)[0] == '.';
      RunOver(s, 0, num[..n], num[n..] + rest, IsDigit);
      assert s[n + 1..] == num[n + 1..] + rest;
      RunOver(s, n + 1, num[n + 1..], rest, IsDigit);
      assert s[n] == '.';
    } else {
      assert num[..n] == num;
      RunOver(s, 0, num, rest, IsDigit);
      if rest != "" { assert s[n] == rest[0]; }
    }
  }

  lemma NumberTaken(s: string)
    ensures NumberLength(s) > 0 ==> IsNumber(s[..NumberLength(s)])
  {
    hide RunEnd;
    var n, l := RunEnd(s, 0, IsDigit), NumberLength(s);
    if l > 0 {
      RunHolds(s, 0, IsDigit);
      assert s[0..n] == s[..n] == s[..l][..n];
      if l > n {
        RunHolds(s, n + 1, IsDigit);
        assert s[..l][n + 1..] == s[n + 1..l];
      }
      assert NumberTo(s[..l], n);
    }
  }

  /** A group that stands there is taken whole. */
  lemma GroupTaken(t: string, k: nat, rest: string)
    requires k < 7 && t != "" && IsGroup(t, k) && (k == 6 ==> rest == "")
    ensures GroupLength(t + rest, k) == |t|
  {
    hide NumberLength, IsNumber;
    LetterCases(k, t[|t| - 1]);
    var s := t + rest;
    assert s[0] == t[0];
    if k != 3 {
      var last := t[|t| - 1];
      if (last == LETTERS[k] || last == LOWER[k]) && IsNumber(t[..|t| - 1]) {
        assert s == t[..|t| - 1] + ([last] + rest);
        NumberEnds(t[..|t| - 1], [last] + rest);
        assert s[|t| - 1] == last;
        NumberNonempty(t[..|t| - 1]);
      } else {
        NumberEnds(t, rest);
        assert s == t;
      }
    }
  }

  lemma NumberNonempty(s: string)
    requires IsNumber(s)
    ensures s != ""
  {
  }

  /** What is taken is a group. */
  lemma TakenIsGroup(s: string, k: nat)
    requires k < 7 && GroupLength(s, k) > 0
    ensures IsGroup(s[..GroupLength(s, k)], k)
  {
    hide NumberLength, IsNumber;
    NumberTaken(s);
    var n := GroupLength(s, k);
    var m := NumberLength(s);
    if LETTERS[k] == 'T' {
      LetterCases(k, s[0]);
      assert s[..1] == [s[0]];
    } else {
      if m < |s| { LetterCases(k, s[m]); }
      LetterCases(k, LETTERS[k]);
      if n == m + 1 { assert s[..n][..n - 1] == s[..m] && s[..n][n - 1] == s[m]; }
    }
  }

  function Amounts(parts: seq<string>): seq<real>
  {
    if parts == [] then [] else [Value(parts[0])] + Amounts(parts[1..])
  }

  /** Groups are read exactly from texts that are made of groups, and their amounts are those of such groups. */
  lemma {:induction false} GroupsIff(s: string, k: nat)
    requires k <= 7
    ensures Groups(s, k).Some? <==> exists parts :: AreGroups(parts, k) && Join(parts) == s
    ensures Groups(s, k).Some? ==> exists parts :: AreGroups(parts, k) && Join(parts) == s && Amounts(parts) == Groups(s, k).value
    decreases 7 - k
  {
    hide GroupLength, Amount, IsGroup;
    if k == 7 {
      if s == "" { assert AreGroups([], 7) && Join([]) == s && Amounts([]) == []; }
    } else {
      GroupsIff(s, k + 1);
      var n := GroupLength(s, k);
      if n > 0 { GroupsIff(s[n..], k + 1); }
      if Groups(s, k).Some? {
        var more: seq<string>, first: string;
        if n > 0 && Groups(s[n..], k + 1).Some? {
          TakenIsGroup(s, k);
          first := s[..n];
          more :| AreGroups(more, k + 1) && Join(more) == s[n..] && Amounts(more) == Groups(s[n..], k + 1).value;
          assert s[..n] + s[n..] == s;
        } else {
          first := "";
          EmptyIsGroup(k);
          more :| AreGroups(more, k + 1) && Join(more) == s && Amounts(more) == Groups(s, k + 1).value;
          assert "" + s == s;
        }
        OneMoreGroup(first, more, k);
        assert Amounts([first] + more) == Groups(s, k).value;
      }
      forall parts | AreGroups(parts, k) && Join(parts) == s ensures Groups(s, k).Some? {
        GroupsThere(s, k, parts);
        if parts[0] != "" && k == 6 { assert parts[1..] == []; }
      }
    }
  }

  lemma EmptyIsGroup(k: nat)
    requires k < 7
    ensures IsGroup("", k)
  {
  }

  lemma OneMoreGroup(first: string, more: seq<string>, k: nat)
    requires k < 7 && IsGroup(first, k) && AreGroups(more, k + 1)
    ensures AreGroups([first] + more, k) && Join([first] + more) == first + Join(more)
    ensures Amounts([first] + more) == [Value(first)] + Amounts(more)
  {
    hide IsGroup, Value;
    var all := [first] + more;
    assert all[1..] == more;
    forall i | 0 <= i < |all| ensures IsGroup(all[i], k + i) { if i > 0 { assert all[i] == more[i - 1]; } }
  }

  lemma GroupsThere(s: string, k: nat, parts: seq<string>)
    requires k < 7 && AreGroups(parts, k) && Join(parts) == s
    ensures AreGroups(parts[1..], k + 1) && s == parts[0] + Join(parts[1..])
    ensures parts[0] == "" ==> Join(parts[1..]) == s
    ensures parts[0] != "" ==> GroupLength(s, k) == |parts[0]| && s[|parts[0]|..] == Join(parts[1..])
  {
    hide IsGroup, GroupLength;
    var rest := Join(parts[1..]);
    assert IsGroup(parts[0], k + 0);
    forall i | 0 <= i < |parts| - 1 ensures IsGroup(parts[1..][i], k + 1 + i) { assert IsGroup(parts[i + 1], k + (i + 1)); }
    if k == 6 { assert parts[1..] == []; }
    if parts[0] != "" { GroupTaken(parts[0], k, rest); } else { assert "" + rest == rest; }
  }

  /** A text as the pattern wants it. */
  ghost predicate Matches(s: string, negative: bool, parts: seq<string>)
  {
    && AreGroups(parts, 0)
    && var sign := if negative then "-" else "";
       s == sign + Join(parts) || s == sign + "P" + Join(parts) || s == sign + "p" + Join(parts)
  }

  /** A text is read exactly when it is a sign, a `P`, and the groups, each of which may be missing; it stands for the sum of such
      groups. */
  lemma ReadIff(s: string)
    ensures Parsed(s).Some? <==> exists negative, parts :: Matches(s, negative, parts)
    ensures Parsed(s).Some? ==> exists negative, parts ::
              && Matches(s, negative, parts) && |Amounts(parts)| == 7
              && Parsed(s).value == if negative then -Total(Amounts(parts), 0) else Total(Amounts(parts), 0)
  {
    hide Groups, Total, AreGroups, Join, Amounts;
    var negative := CharAt(s, 0) == Some('-');
    var s1 := if negative then s[1..] else s;
    var s2 := if IsLetter(CharAt(s1, 0), 'P') then s1[1..] else s1;
    GroupsIff(s2, 0);
    if Groups(s2, 0).Some? {
      var parts :| AreGroups(parts, 0) && Join(parts) == s2 && Amounts(parts) == Groups(s2, 0).value;
      Stripped(s, negative, parts);
      assert Matches(s, negative, parts);
    }
    forall minus, parts | Matches(s, minus, parts) ensures Groups(s2, 0).Some? {
      GroupsStart(parts, 0);
      StrippedBack(s, minus, parts);
    }
  }

  lemma Stripped(s: string, negative: bool, parts: seq<string>)
    requires negative == (CharAt(s, 0) == Some('-')) && AreGroups(parts, 0)
    requires var s1 := if negative then s[1..] else s; Join(parts) == if IsLetter(CharAt(s1, 0), 'P') then s1[1..] else s1
    ensures Matches(s, negative, parts)
  {
    hide AreGroups, Join;
    var s1 := if negative then s[1..] else s;
    assert (if negative then "-" else "") + s1 == s;
    if IsLetter(CharAt(s1, 0), 'P') {
      assert s1 == [s1[0]] + Join(parts);
      assert (if negative then "-" else "") + [s1[0]] + Join(parts) == s;
    }
  }

  /** Groups begin with a digit or a `T`. */
  lemma {:induction false} GroupsStart(parts: seq<string>, k: nat)
    requires k <= 7 && AreGroups(parts, k)
    ensures var j := Join(parts); j != "" ==> IsDigit(j[0]) || j[0] == 'T' || j[0] == 't'
    decreases 7 - k
  {
    hide IsNumber;
    if k < 7 {
      assert IsGroup(parts[0], k + 0);
      forall i | 0 <= i < |parts| - 1 ensures IsGroup(parts[1..][i], k + 1 + i) { assert IsGroup(parts[i + 1], k + (i + 1)); }
      GroupsStart(parts[1..], k + 1);
      var t := parts[0];
      if t != "" {
        GroupStart(t, k);
        assert Join(parts)[0] == t[0];
      }
    }
  }

  lemma GroupStart(t: string, k: nat)
    requires k < 7 && t != "" && IsGroup(t, k)
    ensures IsDigit(t[0]) || t[0] == 'T' || t[0] == 't'
  {
    if k != 3 {
      if IsNumber(t) {
        var n :| 0 < n <= |t| && NumberTo(t, n);
        assert t[..n][0] == t[0];
      } else {
        var num := t[..|t| - 1];
        var n :| 0 < n <= |num| && NumberTo(num, n);
        assert num[..n][0] == t[0];
      }
    }
  }

  lemma StrippedBack(s: string, minus: bool, parts: seq<string>)
    requires Matches(s, minus, parts)
    requires var j := Join(parts); j != "" ==> IsDigit(j[0]) || j[0] == 'T' || j[0] == 't'
    ensures minus == (CharAt(s, 0) == Some('-'))
    ensures var s1 := if minus then s[1..] else s; Join(parts) == if IsLetter(CharAt(s1, 0), 'P') then s1[1..] else s1
  {
    hide AreGroups, Join;
    var j := Join(parts);
    var body := if s == (if minus then "-" else "") + j then j
                else if s == (if minus then "-" else "") + "P" + j then "P" + j else "p" + j;
    assert s == (if minus then "-" else "") + body;
    if minus { assert s[1..] == body; } else { assert s == body; }
    if body != j { assert body[1..] == j; }
  }

  // ------------------------------------------------------------------ printed numbers

  lemma AllDigits(s: string)
    requires s != [] && forall c :: c in s ==> IsDigit(c)
    ensures RunEnd(s, 0, IsDigit) == |s| && IsNumeral(s, false) && IsNumeral(s, true)
    ensures Amount(s) == Number(s) as real
  {
    hide Number;
    RunEndIs(s, 0, IsDigit, |s|);
    assert s[..|s|] == s;
  }

  lemma NamedBack(n: nat, k: nat)
    requires k < 6 && k != 3
    ensures IsPart(Named(n, LETTERS[k]), k) && Value(Named(n, LETTERS[k])) == n as real
    ensures n > 0 <==> Named(n, LETTERS[k]) != []
  {
    hide Digits, Amount, IsNumeral, Number, RunEnd;
    if n > 0 {
      DigitsBack(n);
      AllDigits(Digits(n));
      var t := Named(n, LETTERS[k]);
      assert t[..|t| - 1] == Digits(n);
      NumeralEnds(Digits(n), false, [LETTERS[k]]);
    }
  }

  lemma {:induction false} ZerosKeep(s: string)
    requires forall c :: c in s ==> IsDigit(c)
    ensures var w := WithoutZeros(s);
      && |w| <= |s| && w == s[..|w|]
      && Number(s) == Number(w) * Power10(|s| - |w|)
      && Power10(|s|) == Power10(|w|) * Power10(|s| - |w|)
  {
    if s != [] && s[|s| - 1] == '0' {
      var r := s[..|s| - 1];
      ZerosKeep(r);
      var w := WithoutZeros(s);
      var p := Power10(|r| - |w|);
      assert w == WithoutZeros(r) == s[..|w|];
      assert Power10(|s| - |w|) == 10 * p;
      Tenfold(Number(w), p);
      Tenfold(Power10(|w|), p);
    }
  }

  lemma Tenfold(a: nat, p: nat)
    ensures a * (10 * p) == 10 * (a * p)
  {
  }

  lemma ThreeBack(n: nat)
    requires n < 1000
    ensures (forall c :: c in ThreeDigits(n) ==> IsDigit(c)) && Number(ThreeDigits(n)) == n
  {
    hide Number, Digit;
    var a, b, c := Digit(n / 100), Digit(n / 10 % 10), Digit(n % 10);
    DigitBack(n / 100);
    DigitBack(n / 10 % 10);
    DigitBack(n % 10);
    assert [] + [a] == [a];
    NumberSnoc([], a);
    NumberSnoc([a], b);
    NumberSnoc([a] + [b], c);
    NumberEmpty(1);
  }

  lemma NumberSnoc(s: string, c: char)
    requires IsDigit(c) && forall d :: d in s ==> IsDigit(d)
    ensures Number(s + [c]) == Number(s) * 10 + DigitValue(c)
  {
    assert (s + [c])[..|s|] == s;
  }

  /** Thousandths written in decimals are read back. */
  lemma DecimalBack(n: nat)
    ensures IsNumeral(Decimal(n), true) && Amount(Decimal(n)) == n as real / 1000.0
  {
    hide Digits, Number, RunEnd, WithoutZeros, Power10;
    var a := Digits(n / 1000);
    DigitsBack(n / 1000);
    AllDigits(a);
    var r := n % 1000;
    assert n == n / 1000 * 1000 + r;
    if r > 0 {
      Fraction(r);
      var w := WithoutZeros(ThreeDigits(r));
      PointBack(a, w);
    }
  }

  lemma Fraction(r: nat)
    requires 0 < r < 1000
    ensures var w := WithoutZeros(ThreeDigits(r));
      && w != [] && (forall c :: c in w ==> IsDigit(c))
      && Ratio(Number(w), Power10(|w|)) == Ratio(r, 1000)
  {
    hide ThreeDigits, WithoutZeros, Number, Power10, Ratio;
    var f := ThreeDigits(r);
    ThreeBack(r);
    ThreeLong(r);
    ZerosKeep(f);
    var w := WithoutZeros(f);
    assert w != [] by { NumberEmpty(Power10(3)); }
    Thousand();
    SameRatio(Number(w), Power10(|w|), Power10(3 - |w|), r, 1000);
  }

  lemma ThreeLong(n: nat)
    requires n < 1000
    ensures |ThreeDigits(n)| == 3
  {
  }

  lemma NumberEmpty(p: nat)
    ensures Number([]) * p == 0
  {
  }

  lemma Thousand()
    ensures Power10(3) == 1000
  {
    assert Power10(1) == 10 && Power10(2) == 100;
  }

  lemma SameRatio(a: nat, p: nat, q: nat, n: nat, d: nat)
    requires p > 0 && q > 0 && n == a * q && d == p * q && d > 0
    ensures Ratio(a, p) == Ratio(n, d)
  {
  }

  lemma PointRuns(a: string, w: string)
    requires (forall c :: c in a ==> IsDigit(c)) && (forall c :: c in w ==> IsDigit(c))
    ensures var s := a + "." + w;
      && RunEnd(s, 0, IsDigit) == |a| && RunEnd(s, |a| + 1, IsDigit) == |s|
      && s[|a|] == '.' && s[..|a|] == a && s[|a| + 1..] == w
  {
    hide RunEnd;
    var s := a + "." + w;
    assert s[0..] == a + ("." + w);
    RunOver(s, 0, a, "." + w, IsDigit);
    assert s[|a| + 1..] == w + [];
    RunOver(s, |a| + 1, w, [], IsDigit);
  }

  lemma PointBack(a: string, w: string)
    requires a != [] && w != []
    requires (forall c :: c in a ==> IsDigit(c)) && (forall c :: c in w ==> IsDigit(c))
    ensures var s := a + "." + w;
      IsNumeral(s, true) && Amount(s) == Number(a) as real + Ratio(Number(w), Power10(|w|))
  {
    hide Number, Power10, RunEnd, Ratio;
    PointRuns(a, w);
    var s := a + "." + w;
    assert s[|a| + 1..|s|] == w;
  }

  lemma SecondsBack(seconds: real)
    requires seconds >= 0.0
    ensures var t := SecondsText(seconds);
      IsPart(t, 6) && Value(t) == Thousandths(seconds) as real / 1000.0 && (t == [] <==> seconds == 0.0)
  {
    hide Decimal, Amount, IsNumeral, RunEnd;
    if seconds > 0.0 {
      var num := Decimal(Thousandths(seconds));
      DecimalBack(Thousandths(seconds));
      NumeralEnds(num, true, "S");
      assert SecondsText(seconds)[..|num|] == num;
    }
  }

  // ------------------------------------------------------------------ mixed radix

  /** The quotient is the only one that leaves a remainder below the unit. */
  lemma OneQuotient(x: real, unit: int, n: int)
    requires unit > 0 && 0.0 <= x - (n * unit) as real < unit as real
    ensures Whole(x, unit) == n
  {
    hide Whole, Mod;
    var w := Whole(x, unit);
    ModRange(x, unit);
    ModIs(x, unit);
    if w < n { Steps(w, n, unit); }
    if n < w { Steps(n, w, unit); }
  }

  lemma Steps(a: int, b: int, unit: int)
    requires a < b && unit > 0
    ensures b * unit >= a * unit + unit
  {
    assert (b - a - 1) * unit >= 0;
  }

  /** A remainder by a unit is found from a remainder by a multiple of it. */
  lemma ModMod(x: real, unit: int, k: int)
    requires unit > 0 && k > 0 && unit * k > 0
    ensures Mod(Mod(x, unit * k), unit) == Mod(x, unit)
  {
    hide Whole, Mod;
    var big := unit * k;
    var q, m := Whole(x, big), Whole(Mod(x, big), unit);
    ModIs(x, big);
    ModIs(Mod(x, big), unit);
    ModRange(Mod(x, big), unit);
    assert q * (unit * k) + m * unit == (q * k + m) * unit;
    OneQuotient(x, unit, q * k + m);
    ModIs(x, unit);
  }

  lemma Peeled(x: real, unit: int, k: int)
    requires unit > 0 && k > 0 && unit * k > 0
    ensures Mod(x, unit * k) == (Whole(Mod(x, unit * k), unit) * unit) as real + Mod(x, unit)
  {
    hide Whole, Mod;
    ModMod(x, unit, k);
    ModIs(Mod(x, unit * k), unit);
  }

  /** The amounts for all designators together are the whole number. */
  lemma PartsSum(abs: real)
    requires abs >= 0.0
    ensures var rest := Mod(abs, YEAR);
      var whole := Whole(abs, YEAR) * YEAR + Whole(rest, MONTH) * MONTH
        + Whole(Mod(rest, MONTH), DAY) * DAY + Whole(Mod(rest, DAY), HOUR) * HOUR
        + Whole(Mod(rest, HOUR), MINUTE) * MINUTE;
      abs == whole as real + Mod(rest, MINUTE)
  {
    hide Whole, Mod;
    var rest := Mod(abs, YEAR);
    ModIs(abs, YEAR);
    ModIs(rest, MONTH);
    Peeled(rest, DAY, 30);
    Peeled(rest, HOUR, 24);
    Peeled(rest, MINUTE, 60);
  }

  lemma ThousandthsShift(x: real, n: int)
    ensures Thousandths(n as real + x) == 1000 * n + Thousandths(x)
  {
  }

  lemma TotalSeven(v: seq<real>)
    requires |v| == 7
    ensures Total(v, 0) == v[0] * YEAR as real + v[1] * MONTH as real + v[2] * DAY as real
      + v[4] * HOUR as real + v[5] * MINUTE as real + v[6]
  {
    assert v[1..][1..] == v[2..] && v[2..][1..] == v[3..] && v[3..][1..] == v[4..];
    assert v[4..][1..] == v[5..] && v[5..][1..] == v[6..];
    assert Total(v[6..], 6) == v[6];
    assert Total(v[5..], 5) == v[5] * MINUTE as real + v[6];
    assert Total(v[4..], 4) == v[4] * HOUR as real + v[5] * MINUTE as real + v[6];
    assert Total(v[3..], 3) == v[4] * HOUR as real + v[5] * MINUTE as real + v[6];
    assert Total(v[2..], 2) == v[2] * DAY as real + Total(v[3..], 3);
    assert Total(v[1..], 1) == v[1] * MONTH as real + Total(v[2..], 2);
  }

  lemma ArrangedBack(y: string, m: string, d: string, h: string, i: string, s: string)
    requires IsPart(y, 0) && IsPart(m, 1) && IsPart(d, 2) && IsPart(h, 4) && IsPart(i, 5) && IsPart(s, 6)
    ensures AreParts(Arranged(y, m, d, h, i, s))
    ensures Total(Values(Arranged(y, m, d, h, i, s)), 0) == Value(y) * YEAR as real
      + Value(m) * MONTH as real + Value(d) * DAY as real + Value(h) * HOUR as real
      + Value(i) * MINUTE as real + Value(s)
  {
    hide Total, IsNumeral, Amount, Join;
    var texts := Arranged(y, m, d, h, i, s);
    ZeroSeconds();
    TotalSeven(Values(texts));
    if h + i + s != [] {
      assert texts[4] != [] || texts[5] != [] || texts[6] != [];
    } else if y + m + d != [] {
      assert texts[0] != [] || texts[1] != [] || texts[2] != [];
    } else {
      assert texts[6] != [];
    }
  }

  lemma ZeroSeconds()
    ensures IsPart("0S", 6) && Value("0S") == 0.0
  {
    hide Amount, IsNumeral;
    DecimalBack(0);
    NumeralEnds("0", true, "S");
    assert Decimal(0) == "0" && "0S"[..1] == "0" && "0" + "S" == "0S";
  }

  lemma TextsBack(abs: real)
    requires abs >= 0.0
    ensures AreParts(Texts(abs)) && Total(Values(Texts(abs)), 0) == Thousandths(abs) as real / 1000.0
  {
    hide Whole, Mod, Named, SecondsText, Arranged, IsPart, Value, AreParts, Values, Total, Thousandths;
    var rest := Mod(abs, YEAR);
    ModRange(abs, YEAR);
    ModRange(rest, MONTH);
    ModRange(rest, DAY);
    ModRange(rest, HOUR);
    ModRange(rest, MINUTE);
    ModRange(Mod(rest, MONTH), DAY);
    ModRange(Mod(rest, DAY), HOUR);
    ModRange(Mod(rest, HOUR), MINUTE);
    NamedBack(Whole(abs, YEAR), 0);
    NamedBack(Whole(rest, MONTH), 1);
    NamedBack(Whole(Mod(rest, MONTH), DAY), 2);
    NamedBack(Whole(Mod(rest, DAY), HOUR), 4);
    NamedBack(Whole(Mod(rest, HOUR), MINUTE), 5);
    SecondsBack(Mod(rest, MINUTE));
    ArrangedBack(
      Named(Whole(abs, YEAR), 'Y'),
      Named(Whole(rest, MONTH), 'M'),
      Named(Whole(Mod(rest, MONTH), DAY), 'D'),
      Named(Whole(Mod(rest, DAY), HOUR), 'H'),
      Named(Whole(Mod(rest, HOUR), MINUTE), 'M'),
      SecondsText(Mod(rest, MINUTE)));
    PartsSum(abs);
    ThousandthsShift(Mod(rest, MINUTE), Whole(abs, YEAR) * YEAR + Whole(rest, MONTH) * MONTH
        + Whole(Mod(rest, MONTH), DAY) * DAY + Whole(Mod(rest, DAY), HOUR) * HOUR
        + Whole(Mod(rest, HOUR), MINUTE) * MINUTE);
  }

  // ------------------------------------------------------------------ main results

  /** A number rounded to the nearest thousandth, a half going away from 0. */
  function Rounded(value: real): (r: real)
    ensures -0.0005 <= r - value <= 0.0005
  {
    var t := Thousandths(Abs(value)) as real / 1000.0;
    if value < 0.0 then -t else t
  }

  /** What is printed is a duration as XML Schema has them. */
  lemma PrintedIsLexical(value: real)
    ensures IsLexical(Printed(value))
  {
    hide Texts, AreParts, Join;
    var texts := Texts(Abs(value));
    TextsBack(Abs(value));
    assert value < 0.0 ==> "-" + "P" + Join(texts) == "-P" + Join(texts);
    assert value >= 0.0 ==> "" + "P" + Join(texts) == "P" + Join(texts);
  }

  /** Reading what was printed gives the number back, to the thousandth of a second. */
  lemma ReadBack(value: real)
    ensures Parsed(Printed(value)) == Some(Rounded(value))
  {
    hide Texts, AreParts, Join, Parsed, Thousandths, Total, Values;
    var texts := Texts(Abs(value));
    TextsBack(Abs(value));
    LexicalRead(texts);
    assert value < 0.0 ==> "-" + "P" + Join(texts) == "-P" + Join(texts);
    assert value >= 0.0 ==> "" + "P" + Join(texts) == "P" + Join(texts);
  }

  /** Whole thousandths come back exactly, negative ones too. */
  lemma ThousandthsReadBack(n: int)
    ensures Parsed(Printed(n as real / 1000.0)) == Some(n as real / 1000.0)
  {
    hide Parsed, Printed, Rounded, Total, Groups;
    WholeRounded(n);
    ReadBack(n as real / 1000.0);
  }

  lemma WholeRounded(n: int)
    ensures Rounded(n as real / 1000.0) == n as real / 1000.0
  {
    var a: nat := if n < 0 then -n else n;
    assert Abs(n as real / 1000.0) == a as real / 1000.0;
    assert (a as real / 1000.0) * 1000.0 + 0.5 == a as real + 0.5;
    assert (a as real + 0.5).Floor == a;
  }
}
