/** Strings read with a cursor, and white space. */
module Strings {
  import opened Wrappers

  // ------------------------------------------------------------------ the cursor

  /** How far `p` holds from `pos` on. */
  function RunEnd(s: string, pos: nat, p: char -> bool): (n: nat)
    ensures pos <= n && (pos <= |s| ==> n <= |s|)
    decreases |s| - pos
  {
    if pos < |s| && p(s[pos]) then RunEnd(s, pos + 1, p) else pos
  }

  predicate StartsAt(s: string, pos: nat, t: string)
  {
    pos + |t| <= |s| && s[pos..pos + |t|] == t
  }

  /** The first place from `pos` on where `t` stands; the end when there is none. */
  function Find(s: string, pos: nat, t: string): (n: nat)
    requires t != []
    ensures n <= |s| && (pos <= |s| ==> pos <= n)
    decreases |s| - pos
  {
    if pos >= |s| then |s| else if StartsAt(s, pos, t) then pos else Find(s, pos + 1, t)
  }

  /** `substring`: positions behind the end count as the end. */
  function Sub(s: string, a: nat, b: nat): string
    requires a <= b
  {
    if b <= |s| then s[a..b] else if a <= |s| then s[a..] else []
  }

  function CharAt(s: string, pos: nat): Option<char>
  {
    if pos < |s| then Some(s[pos]) else None
  }

  class StringReader {
    const data: string
    var position: nat

    constructor (data: string)
      ensures this.data == data && position == 0
    {
      this.data := data;
      position := 0;
    }

    method While(p: char -> bool) returns (start: nat)
      modifies this`position
      ensures start == old(position) && position == RunEnd(data, old(position), p)
    {
      start := position;
      var i := start;
      while i < |data| && p(data[i])
        invariant start <= i && RunEnd(data, i, p) == RunEnd(data, start, p)
      {
        i := i + 1;
      }
      position := i;
    }

    method SubstringWhile(p: char -> bool) returns (t: string)
      modifies this`position
      ensures position == RunEnd(data, old(position), p) && t == Sub(data, old(position), position)
    {
      var start := While(p);
      t := Sub(data, start, position);
    }

    method UntilString(t: string) returns (start: nat)
      requires t != []
      modifies this`position
      ensures start == old(position) && position == Find(data, old(position), t)
    {
      start := position;
      var i := start;
      while i < |data| && !StartsAt(data, i, t)
        invariant start <= i && Find(data, i, t) == Find(data, start, t)
      {
        i := i + 1;
      }
      position := if i < |data| then i else |data|;
    }

    /** Reads one character, even past the end. */
    method Next() returns (c: Option<char>)
      modifies this`position
      ensures c == CharAt(data, old(position)) && position == old(position) + 1
    {
      c := CharAt(data, position);
      position := position + 1;
    }

    method CharIf(c: char) returns (found: bool)
      modifies this`position
      ensures found <==> CharAt(data, old(position)) == Some(c)
      ensures position == if found then old(position) + 1 else old(position)
    {
      found := CharAt(data, position) == Some(c);
      if found { position := position + 1; }
    }

    method StringIf(t: string) returns (found: bool)
      modifies this`position
      ensures found <==> StartsAt(data, old(position), t)
      ensures position == if found then old(position) + |t| else old(position)
    {
      found := StartsAt(data, position, t);
      if found { position := position + |t|; }
    }

    /** Reads the expected character or fails. */
    method ReadChar(c: char) returns (ok: bool)
      modifies this`position
      ensures ok <==> CharAt(data, old(position)) == Some(c)
      ensures position == old(position) + 1
    {
      var actual := Next();
      ok := actual == Some(c);
    }
  }

  lemma {:induction false} RunEndIs(s: string, pos: nat, p: char -> bool, n: nat)
    requires pos <= n <= |s|
    requires forall k :: pos <= k < n ==> p(s[k])
    requires n == |s| || !p(s[n])
    ensures RunEnd(s, pos, p) == n
    decreases n - pos
  {
    if pos < n { RunEndIs(s, pos + 1, p, n); }
  }

  lemma {:induction false} FindIs(s: string, pos: nat, t: string, n: nat)
    requires t != [] && pos <= n && StartsAt(s, n, t)
    requires forall k: nat :: pos <= k < n ==> !StartsAt(s, k, t)
    ensures Find(s, pos, t) == n
    decreases n - pos
  {
    if pos < n { FindIs(s, pos + 1, t, n); }
  }

  /** Text that stands at `pos` is read from there. */
  lemma Here(s: string, pos: nat, t: string, rest: string)
    requires pos <= |s| && s[pos..] == t + rest
    ensures pos + |t| <= |s| && s[pos..pos + |t|] == t && s[pos + |t|..] == rest
    ensures forall k :: pos <= k < pos + |t| ==> s[k] == t[k - pos]
  {
    assert s[pos..][..|t|] == t && s[pos..][|t|..] == rest;
    assert forall k :: pos <= k < pos + |t| ==> s[k] == s[pos..][k - pos];
  }

  lemma RunOver(s: string, pos: nat, t: string, rest: string, p: char -> bool)
    requires pos <= |s| && s[pos..] == t + rest
    requires forall c :: c in t ==> p(c)
    requires rest == [] || !p(rest[0])
    ensures RunEnd(s, pos, p) == pos + |t| && Sub(s, pos, pos + |t|) == t
  {
    Here(s, pos, t, rest);
    var n := pos + |t|;
    forall k | pos <= k < n ensures p(s[k])
    {
      assert s[k] == t[k - pos] && t[k - pos] in t;
    }
    if rest != [] { assert s[n] == s[n..][0]; }
    RunEndIs(s, pos, p, n);
  }

  // ------------------------------------------------------------------ characters

  predicate IsWhite(c: char)
  {
    c == ' ' || c == '\t' || c == '\r' || c == '\n'
  }

  /** What `trim` removes at both ends. */
  predicate IsTrimmed(c: char)
  {
    var n := c as int;
    || IsWhite(c) || n == 0x0B || n == 0x0C || n == 0xA0 || n == 0x1680 || 0x2000 <= n <= 0x200A
    || n == 0x2028 || n == 0x2029 || n == 0x202F || n == 0x205F || n == 0x3000 || n == 0xFEFF
  }

  function TrimStart(s: string): string
  {
    if s != [] && IsTrimmed(s[0]) then TrimStart(s[1..]) else s
  }

  function TrimEnd(s: string): string
  {
    if s != [] && IsTrimmed(s[|s| - 1]) then TrimEnd(s[..|s| - 1]) else s
  }

  function Trim(s: string): string
  {
    TrimEnd(TrimStart(s))
  }

  predicate AllWhite(s: string)
  {
    forall c :: c in s ==> IsWhite(c)
  }

  lemma {:induction false} TrimWhite(s: string)
    requires AllWhite(s)
    ensures Trim(s) == []
  {
    if s != [] {
      assert s[0] in s;
      TrimWhite(s[1..]);
    }
  }

  /** Nothing at the ends that `trim` would remove. */
  predicate Tight(s: string)
  {
    s != [] ==> !IsTrimmed(s[0]) && !IsTrimmed(s[|s| - 1])
  }

  predicate AllTrimmed(s: string)
  {
    forall c :: c in s ==> IsTrimmed(c)
  }

  /** Trimming takes away what is around a text, and no more. */
  lemma {:induction false} TrimIs(front: string, text: string, back: string)
    requires AllTrimmed(front) && Tight(text) && AllTrimmed(back)
    ensures Trim(front + text + back) == text
    decreases |front|
  {
    hide IsTrimmed;
    if front != [] {
      assert front[0] in front;
      assert forall c :: c in front[1..] ==> c in front;
      assert (front + text + back)[1..] == front[1..] + text + back;
      TrimIs(front[1..], text, back);
    } else if text == [] {
      assert front + text + back == back + [];
      TrimStartOver(back, []);
    } else {
      assert front + text + back == text + back;
      TrimEndOver(text, back);
    }
  }

  lemma {:induction false} TrimStartOver(front: string, s: string)
    requires AllTrimmed(front) && TrimStart(s) == s
    ensures TrimStart(front + s) == s
  {
    hide IsTrimmed;
    if front == [] {
      assert front + s == s;
    } else {
      assert front[0] in front;
      assert forall c :: c in front[1..] ==> c in front;
      assert (front + s)[1..] == front[1..] + s;
      TrimStartOver(front[1..], s);
    }
  }

  lemma {:induction false} TrimEndOver(s: string, back: string)
    requires AllTrimmed(back) && TrimEnd(s) == s
    ensures TrimEnd(s + back) == s
    decreases |back|
  {
    hide IsTrimmed;
    if back == [] {
      assert s + back == s;
    } else {
      var n := |back| - 1;
      assert back[n] in back;
      assert forall c :: c in back[..n] ==> c in back;
      assert (s + back)[..|s + back| - 1] == s + back[..n];
      TrimEndOver(s, back[..n]);
    }
  }

  // ------------------------------------------------------------------ numbers

  predicate IsDigit(c: char) { '0' <= c <= '9' }

  function Digit(n: nat): char
    requires n < 10
  {
    "0123456789"[n]
  }

  function Digits(n: nat): string
  {
    if n < 10 then [Digit(n)] else Digits(n / 10) + [Digit(n % 10)]
  }

  function DigitValue(c: char): nat
    requires IsDigit(c)
  {
    c as int - '0' as int
  }

  /** The number a row of digits stands for. */
  function Number(s: string): nat
    requires forall c :: c in s ==> IsDigit(c)
  {
    if s == [] then 0 else Number(s[..|s| - 1]) * 10 + DigitValue(s[|s| - 1])
  }

  lemma DigitBack(n: nat)
    requires n < 10
    ensures IsDigit(Digit(n)) && DigitValue(Digit(n)) == n
  {
  }

  /** Digits stand for the number they were written for. */
  lemma {:induction false} DigitsBack(n: nat)
    ensures Digits(n) != [] && (forall c :: c in Digits(n) ==> IsDigit(c)) && Number(Digits(n)) == n
  {
    hide Digit;
    DigitBack(n % 10);
    if n >= 10 {
      DigitsBack(n / 10);
      var d := Digits(n);
      assert d[..|d| - 1] == Digits(n / 10);
    } else {
      DigitBack(n);
      assert Digits(n)[..0] == [];
    }
  }
}
