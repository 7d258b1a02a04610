/** Strings as XML sees them: names, entities, and CDATA sections. */
module XmlText {
  import opened Strings
  import opened Wrappers

  // ------------------------------------------------------------------ names

  /** Name characters, decided by halving. */
  predicate IsNameChar(c: char)
  {
    var n := c as int;
    if n >= 0x61 then
      if n >= 0xB7 then
        if n >= 0x300 then if n >= 0x203F then n <= 0x2040 else n <= 0x36F
        else n == 0xB7
      else n <= 0x7A
    else if n >= 0x5F then n == 0x5F
    else if n >= 0x41 then n <= 0x5A
    else if n >= 0x2D then if n >= 0x30 then n <= 0x39 else n <= 0x2E
    else false
  }

  /** The halving decides exactly these ranges, none of which holds markup, a quote, a colon or white space. */
  lemma NameCharRanges(c: char)
    ensures var n := c as int;
            IsNameChar(c) <==>
              || 'a' <= c <= 'z' || 'A' <= c <= 'Z' || '0' <= c <= '9' || c == '-' || c == '.' || c == '_'
              || n == 0xB7 || 0x300 <= n <= 0x36F || 0x203F <= n <= 0x2040
    ensures IsNameChar(c) ==> !IsWhite(c) && c !in "<>/=?!:'\"&"
  {
  }

  predicate IsName(s: string)
  {
    s != [] && forall c :: c in s ==> IsNameChar(c)
  }

  // ------------------------------------------------------------------ entities

  function EncodeChar(c: char): string
  {
    match c
    case '&' => "&amp;"
    case '\'' => "&apos;"
    case '>' => "&gt;"
    case '<' => "&lt;"
    case '"' => "&quot;"
    case _ => [c]
  }

  function EncodeEntities(s: string): string
  {
    if s == [] then [] else EncodeChar(s[0]) + EncodeEntities(s[1..])
  }

  predicate IsHex(c: char) { IsDigit(c) || 'a' <= c <= 'f' || 'A' <= c <= 'F' }

  predicate IsWord(c: char) { IsDigit(c) || 'a' <= c <= 'z' || 'A' <= c <= 'Z' || c == '_' }

  function HexValue(c: char): nat
    requires IsHex(c)
  {
    if IsDigit(c) then c as int - '0' as int
    else if c <= 'F' then c as int - 'A' as int + 10
    else c as int - 'a' as int + 10
  }

  function NumberIn(s: string, base: nat): nat
    requires forall c :: c in s ==> IsHex(c)
  {
    if s == [] then 0 else NumberIn(s[..|s| - 1], base) * base + HexValue(s[|s| - 1])
  }

  predicate IsDecimal(body: string)
  {
    |body| > 1 && body[0] == '#' && forall c :: c in body[1..] ==> IsDigit(c)
  }

  predicate IsHexadecimal(body: string)
  {
    |body| > 2 && body[0] == '#' && (body[1] == 'x' || body[1] == 'X') && forall c :: c in body[2..] ==> IsHex(c)
  }

  predicate IsNamed(body: string)
  {
    body != [] && forall c :: c in body ==> IsWord(c)
  }

  function Lower(s: string): string
  {
    if s == [] then []
    else [if 'A' <= s[0] <= 'Z' then (s[0] as int + 32) as char else s[0]] + Lower(s[1..])
  }

  /** What `&body;` stands for; an unknown name or an impossible code point stays as it is. */
  function Expand(body: string): string
    requires IsDecimal(body) || IsHexadecimal(body) || IsNamed(body)
  {
    if IsHexadecimal(body) then ExpandNumber(NumberIn(body[2..], 16), body)
    else if IsDecimal(body) then ExpandNumber(NumberIn(body[1..], 10), body)
    else
      match Lower(body)
      case "apos" => "'"
      case "amp" => "&"
      case "lt" => "<"
      case "gt" => ">"
      case "quot" => "\""
      case _ => "&" + body + ";"
  }

  function ExpandNumber(n: nat, body: string): string
  {
    if n > 0x10_FFFF || 0xD800 <= n <= 0xDFFF then "&" + body + ";" else [n as char]
  }

  predicate NotSemicolon(c: char) { c != ';' }

  function DecodeEntities(s: string): string
  {
    if s == [] then []
    else if s[0] != '&' then [s[0]] + DecodeEntities(s[1..])
    else
      var k := RunEnd(s, 1, NotSemicolon);
      if k < |s| && (IsDecimal(s[1..k]) || IsHexadecimal(s[1..k]) || IsNamed(s[1..k]))
      then Expand(s[1..k]) + DecodeEntities(s[k + 1..])
      else ['&'] + DecodeEntities(s[1..])
  }

  lemma DecodeNamed(name: string, rest: string, c: char)
    requires IsNamed(name) && Expand(name) == [c]
    ensures DecodeEntities("&" + name + ";" + rest) == [c] + DecodeEntities(rest)
  {
    var s := "&" + name + ";" + rest;
    var k := |name| + 1;
    assert s[k] == ';';
    forall j | 1 <= j < k ensures NotSemicolon(s[j])
    {
      assert s[j] == name[j - 1] && name[j - 1] in name;
    }
    RunEndIs(s, 1, NotSemicolon, k);
    assert s[1..k] == name && s[k + 1..] == rest;
  }

  lemma {:induction false} DecodePlain(c: char, rest: string)
    requires c != '&'
    ensures DecodeEntities([c] + rest) == [c] + DecodeEntities(rest)
  {
    assert ([c] + rest)[1..] == rest;
  }

  lemma {:induction false} LowerSame(s: string)
    requires forall c :: c in s ==> 'a' <= c <= 'z'
    ensures Lower(s) == s
  {
    if s != [] {
      assert s[0] in s;
      assert forall c :: c in s[1..] ==> c in s;
      LowerSame(s[1..]);
    }
  }

  lemma Letters(name: string)
    requires name != [] && forall c :: c in name ==> 'a' <= c <= 'z'
    ensures IsNamed(name) && !IsDecimal(name) && !IsHexadecimal(name) && Lower(name) == name
  {
    LowerSame(name);
    assert name[0] in name;
  }

  lemma Names(name: string)
    requires name == "amp" || name == "apos" || name == "gt" || name == "lt" || name == "quot"
    ensures IsNamed(name)
    ensures Expand(name) == match name case "amp" => "&" case "apos" => "'" case "gt" => ">" case "lt" => "<" case _ => "\""
  {
    Letters(name);
    hide NumberIn, Lower, IsNamed, IsDecimal, IsHexadecimal;
  }

  lemma DecodeChar(c: char, rest: string)
    ensures DecodeEntities(EncodeChar(c) + rest) == [c] + DecodeEntities(rest)
  {
    hide DecodeEntities, Expand, IsNamed;
    match c
    case '&' => Names("amp"); DecodeNamed("amp", rest, c); assert "&amp;" == "&" + "amp" + ";";
    case '\'' => Names("apos"); DecodeNamed("apos", rest, c); assert "&apos;" == "&" + "apos" + ";";
    case '>' => Names("gt"); DecodeNamed("gt", rest, c); assert "&gt;" == "&" + "gt" + ";";
    case '<' => Names("lt"); DecodeNamed("lt", rest, c); assert "&lt;" == "&" + "lt" + ";";
    case '"' => Names("quot"); DecodeNamed("quot", rest, c); assert "&quot;" == "&" + "quot" + ";";
    case _ => DecodePlain(c, rest);
  }

  /** Decoding undoes encoding, for every string. */
  lemma {:induction false} DecodeEncode(s: string)
    ensures DecodeEntities(EncodeEntities(s)) == s
  {
    hide DecodeEntities, EncodeChar;
    if s == [] {
      DecodeNothing();
    } else {
      DecodeEncode(s[1..]);
      DecodeChar(s[0], EncodeEntities(s[1..]));
    }
  }

  lemma DecodeNothing()
    ensures DecodeEntities([]) == []
  {
  }

  function HexDigit(n: nat, upper: bool): char
    requires n < 16
  {
    if upper then "0123456789ABCDEF"[n] else "0123456789abcdef"[n]
  }

  function HexDigits(n: nat, upper: bool): string
  {
    if n < 16 then [HexDigit(n, upper)] else HexDigits(n / 16, upper) + [HexDigit(n % 16, upper)]
  }

  lemma HexDigitBack(n: nat, upper: bool)
    requires n < 16
    ensures IsHex(HexDigit(n, upper)) && HexValue(HexDigit(n, upper)) == n
  {
  }

  lemma {:induction false} HexBack(n: nat, upper: bool)
    ensures HexDigits(n, upper) != [] && (forall c :: c in HexDigits(n, upper) ==> IsHex(c)) && NumberIn(HexDigits(n, upper), 16) == n
  {
    hide HexDigit, IsHex, HexValue;
    HexDigitBack(n % 16, upper);
    if n >= 16 {
      HexBack(n / 16, upper);
      var d := HexDigits(n, upper);
      assert d[..|d| - 1] == HexDigits(n / 16, upper);
    } else {
      assert HexDigits(n, upper)[..0] == [];
    }
  }

  lemma {:induction false} DecimalIs(s: string)
    requires forall c :: c in s ==> IsDigit(c)
    ensures (forall c :: c in s ==> IsHex(c)) && NumberIn(s, 10) == Number(s)
  {
    if s != [] { DecimalIs(s[..|s| - 1]); }
  }

  /** A character may be written as its number, in either base. */
  lemma NumberBack(n: nat, upper: bool, x: char, rest: string)
    requires n <= 0x10_FFFF && !(0xD800 <= n <= 0xDFFF) && (x == 'x' || x == 'X')
    ensures DecodeEntities("&" + ("#" + Digits(n)) + ";" + rest) == [n as char] + DecodeEntities(rest)
    ensures DecodeEntities("&" + ("#" + [x] + HexDigits(n, upper)) + ";" + rest) == [n as char] + DecodeEntities(rest)
  {
    hide DecodeEntities, IsDecimal, IsHexadecimal, IsNamed, Expand;
    DecimalBody(n);
    DecodeBody("#" + Digits(n), rest);
    HexBody(n, upper, x);
    DecodeBody("#" + [x] + HexDigits(n, upper), rest);
  }

  /** Any other number stands for itself as it is written. */
  lemma NoSuchCharacter(n: nat, rest: string)
    requires n > 0x10_FFFF || 0xD800 <= n <= 0xDFFF
    ensures DecodeEntities("&" + ("#" + Digits(n)) + ";" + rest) == "&#" + Digits(n) + ";" + DecodeEntities(rest)
  {
    hide DecodeEntities, IsDecimal, IsHexadecimal, IsNamed, Expand;
    DecimalBody(n);
    DecodeBody("#" + Digits(n), rest);
    assert "&" + ("#" + Digits(n)) + ";" == "&#" + Digits(n) + ";";
  }

  lemma DecimalBody(n: nat)
    ensures var body := "#" + Digits(n);
            IsDecimal(body) && ';' !in body && Expand(body) == ExpandNumber(n, body)
  {
    hide NumberIn, Number, Digits;
    var body := "#" + Digits(n);
    DigitsBack(n);
    DecimalIs(Digits(n));
    assert body[1..] == Digits(n);
    assert body[1] in Digits(n);
    assert forall c :: c in body ==> c == '#' || c in Digits(n);
  }

  lemma HexBody(n: nat, upper: bool, x: char)
    requires x == 'x' || x == 'X'
    ensures var body := "#" + [x] + HexDigits(n, upper);
            IsHexadecimal(body) && ';' !in body && Expand(body) == ExpandNumber(n, body)
  {
    hide NumberIn, HexDigits;
    var body := "#" + [x] + HexDigits(n, upper);
    HexBack(n, upper);
    assert body[2..] == HexDigits(n, upper);
    assert forall c :: c in body ==> c == '#' || c == x || c in HexDigits(n, upper);
  }

  lemma DecodeBody(body: string, rest: string)
    requires (IsDecimal(body) || IsHexadecimal(body) || IsNamed(body)) && ';' !in body
    ensures DecodeEntities("&" + body + ";" + rest) == Expand(body) + DecodeEntities(rest)
  {
    hide Expand, IsDecimal, IsHexadecimal, IsNamed;
    var s := "&" + body + ";" + rest;
    var k := |body| + 1;
    assert s[k] == ';';
    forall j | 1 <= j < k ensures NotSemicolon(s[j]) { assert s[j] == body[j - 1] && body[j - 1] in body; }
    RunEndIs(s, 1, NotSemicolon, k);
    assert s[1..k] == body && s[k + 1..] == rest;
  }

  /** Letters of either case. */
  predicate SameLetters(a: string, word: string)
  {
    |a| == |word| && forall i :: 0 <= i < |a| ==> 'a' <= word[i] <= 'z' && (a[i] == word[i] || a[i] as int + 32 == word[i] as int)
  }

  lemma {:induction false} LowerIs(a: string, word: string)
    requires SameLetters(a, word)
    ensures Lower(a) == word
  {
    if a != [] { LowerIs(a[1..], word[1..]); }
  }

  /** The five named entities, in letters of either case. */
  lemma NamedBack(name: string, word: string, rest: string)
    requires SameLetters(name, word) && word in {"amp", "apos", "gt", "lt", "quot"}
    ensures DecodeEntities("&" + name + ";" + rest)
         == (match word case "amp" => "&" case "apos" => "'" case "gt" => ">" case "lt" => "<" case _ => "\"") + DecodeEntities(rest)
  {
    hide DecodeEntities, NumberIn, Lower;
    LowerIs(name, word);
    assert forall c :: c in name ==> IsWord(c) && c != ';' && c != '#';
    assert name[0] != '#';
    DecodeBody(name, rest);
  }

  /** Encoding goes character by character, and changes no white space. */
  lemma {:induction false} EncodeAppend(a: string, b: string)
    ensures EncodeEntities(a + b) == EncodeEntities(a) + EncodeEntities(b)
  {
    hide EncodeChar;
    if a == [] {
      assert a + b == b;
    } else {
      EncodeAppend(a[1..], b);
      assert (a + b)[0] == a[0] && (a + b)[1..] == a[1..] + b;
    }
  }

  lemma {:induction false} EncodeWhite(s: string)
    requires AllTrimmed(s)
    ensures EncodeEntities(s) == s
  {
    hide IsTrimmed;
    if s != [] {
      assert s[0] in s;
      PlainWhite(s[0]);
      EncodeWhite(s[1..]);
    }
  }

  lemma PlainWhite(c: char)
    requires IsTrimmed(c)
    ensures EncodeChar(c) == [c]
  {
  }

  lemma CharTight(c: char)
    ensures EncodeChar(c) != [] && (!IsTrimmed(c) ==> Tight(EncodeChar(c)))
  {
  }

  lemma EncodeTight(s: string)
    requires Tight(s)
    ensures Tight(EncodeEntities(s))
  {
    hide EncodeChar, IsTrimmed, EncodeEntities;
    if s == [] {
      EncodeWhite(s);
    } else {
      var n := |s| - 1;
      CharTight(s[0]);
      CharTight(s[n]);
      EncodeOne(s[0]);
      EncodeOne(s[n]);
      EncodeAppend([s[0]], s[1..]);
      EncodeAppend(s[..n], [s[n]]);
      assert [s[0]] + s[1..] == s && s[..n] + [s[n]] == s;
    }
  }

  lemma EncodeOne(c: char)
    ensures EncodeEntities([c]) == EncodeChar(c)
  {
    assert [c][1..] == [];
    assert EncodeEntities([c]) == EncodeChar(c) + EncodeEntities([]);
  }

  /** Text printed with entities and read trimmed and decoded is the text trimmed. */
  lemma TrimmedBack(front: string, text: string, back: string)
    requires AllTrimmed(front) && Tight(text) && AllTrimmed(back)
    ensures DecodeEntities(Trim(EncodeEntities(front + text + back))) == text
  {
    hide DecodeEntities, Trim, EncodeEntities, Tight, AllTrimmed;
    EncodeAppend(front + text, back);
    EncodeAppend(front, text);
    EncodeWhite(front);
    EncodeWhite(back);
    EncodeTight(text);
    TrimIs(front, EncodeEntities(text), back);
    DecodeEncode(text);
  }

  /** Encoded text holds no quote and no markup. */
  lemma {:induction false} EncodedIsClean(s: string)
    ensures forall c :: c in EncodeEntities(s) ==> c != '"' && c != '\'' && c != '<' && c != '>'
  {
    if s != [] { EncodedIsClean(s[1..]); }
  }

  lemma {:induction false} NothingToDecode(s: string)
    requires '&' !in s
    ensures DecodeEntities(s) == s
  {
    if s != [] { NothingToDecode(s[1..]); }
  }

  lemma ExpandShrinks(body: string)
    requires IsDecimal(body) || IsHexadecimal(body) || IsNamed(body)
    ensures Expand(body) == "&" + body + ";" || |Expand(body)| == 1
  {
    hide NumberIn, Lower;
  }

  lemma EntityShrinks(s: string, body: string, rest: string, e: string, d: string)
    requires s == "&" + body + ";" + rest && body != [] && (e == "&" + body + ";" || |e| == 1) && (d == rest || |d| < |rest|)
    ensures (e + d == s || |e + d| < |s|) && e + d != []
  {
  }

  /** An entity stands at the beginning, up to the semicolon at `k`. */
  predicate EntityTo(s: string, k: nat)
  {
    s != [] && s[0] == '&' && k == RunEnd(s, 1, NotSemicolon) && k < |s|
    && (IsDecimal(s[1..k]) || IsHexadecimal(s[1..k]) || IsNamed(s[1..k]))
  }

  /** Decoding leaves a text as it is or makes it shorter, but never empty. */
  lemma {:induction false} DecodeShrinks(s: string)
    ensures DecodeEntities(s) == s || |DecodeEntities(s)| < |s|
    ensures s != [] ==> DecodeEntities(s) != []
    decreases |s|
  {
    hide EntityTo, DecodeEntities, RunEnd;
    if s != [] {
      var k := RunEnd(s, 1, NotSemicolon);
      if EntityTo(s, k) {
        EntityParts(s, k);
        DecodeShrinks(s[k + 1..]);
        EntityStep(s, k);
      } else {
        DecodeShrinks(s[1..]);
        CharacterRead(s, k);
        assert s == [s[0]] + s[1..];
      }
    } else {
      NothingRead();
    }
  }

  lemma NothingRead()
    ensures DecodeEntities([]) == []
  {
  }

  lemma EntityStep(s: string, k: nat)
    requires EntityTo(s, k) && k < |s|
    requires DecodeEntities(s[k + 1..]) == s[k + 1..] || |DecodeEntities(s[k + 1..])| < |s[k + 1..]|
    ensures (DecodeEntities(s) == s || |DecodeEntities(s)| < |s|) && DecodeEntities(s) != []
  {
    hide EntityTo, DecodeEntities, Expand, IsDecimal, IsHexadecimal, IsNamed;
    EntityParts(s, k);
    EntityRead(s, k);
    EntityShrinks(s, s[1..k], s[k + 1..], Expand(s[1..k]), DecodeEntities(s[k + 1..]));
  }

  lemma EntityParts(s: string, k: nat)
    requires EntityTo(s, k)
    ensures 1 < k < |s| && s == "&" + s[1..k] + ";" + s[k + 1..]
    ensures IsDecimal(s[1..k]) || IsHexadecimal(s[1..k]) || IsNamed(s[1..k])
    ensures Expand(s[1..k]) == "&" + s[1..k] + ";" || |Expand(s[1..k])| == 1
  {
    hide Expand, RunEnd, IsDecimal, IsHexadecimal, IsNamed;
    SemicolonAt(s, k);
    BodyNonempty(s[1..k]);
    ExpandShrinks(s[1..k]);
  }

  lemma EntityRead(s: string, k: nat)
    requires EntityTo(s, k) && k < |s|
    requires IsDecimal(s[1..k]) || IsHexadecimal(s[1..k]) || IsNamed(s[1..k])
    ensures DecodeEntities(s) == Expand(s[1..k]) + DecodeEntities(s[k + 1..])
  {
    hide Expand, RunEnd, IsDecimal, IsHexadecimal, IsNamed;
  }

  lemma CharacterRead(s: string, k: nat)
    requires s != [] && k == RunEnd(s, 1, NotSemicolon) && !EntityTo(s, k)
    ensures DecodeEntities(s) == [s[0]] + DecodeEntities(s[1..])
  {
    hide Expand, RunEnd, IsDecimal, IsHexadecimal, IsNamed;
  }

  lemma SemicolonAt(s: string, k: nat)
    requires s != [] && k == RunEnd(s, 1, NotSemicolon) && k < |s|
    ensures s[k] == ';'
  {
    RunStops(s, 1, NotSemicolon);
  }

  lemma {:induction false} RunStops(s: string, pos: nat, p: char -> bool)
    ensures RunEnd(s, pos, p) < |s| ==> !p(s[RunEnd(s, pos, p)])
    decreases |s| - pos
  {
    if pos < |s| && p(s[pos]) { RunStops(s, pos + 1, p); }
  }

  lemma BodyNonempty(body: string)
    requires IsDecimal(body) || IsHexadecimal(body) || IsNamed(body)
    ensures body != []
  {
  }

  // ------------------------------------------------------------------ CDATA sections

  const CDATA_START := "<![CDATA["
  const CDATA_END := "]]>"
  const CDATA_GLUE := "]]]]><![CDATA[>"

  predicate EndAt(s: string, k: nat)
  {
    k + 3 <= |s| && s[k] == ']' && s[k + 1] == ']' && s[k + 2] == '>'
  }

  lemma EndIs(s: string, k: nat)
    ensures StartsAt(s, k, CDATA_END) <==> EndAt(s, k)
  {
    if k + 3 <= |s| {
      var t := s[k..k + 3];
      assert t[0] == s[k] && t[1] == s[k + 1] && t[2] == s[k + 2];
      if EndAt(s, k) { assert t == "]]>"; }
    }
  }

  /** `split`: the parts between the occurrences of `]]>`. */
  function Split(s: string): (parts: seq<string>)
    ensures parts != []
    decreases |s|
  {
    var k := Find(s, 0, CDATA_END);
    if k + 3 > |s| then [s] else [s[..k]] + Split(s[k + 3..])
  }

  function Join(parts: seq<string>, glue: string): string
    requires parts != []
  {
    if |parts| == 1 then parts[0] else parts[0] + glue + Join(parts[1..], glue)
  }

  /** The text as CDATA. */
  function CData(s: string): string
  {
    CDATA_START + Join(Split(s), CDATA_GLUE) + CDATA_END
  }

  /** The sections it makes; all but the first start with the `>` that was cut off. */
  function Sections(parts: seq<string>, lead: string): seq<string>
    requires parts != []
  {
    if |parts| == 1 then [lead + parts[0]] else [lead + parts[0] + "]]"] + Sections(parts[1..], ">")
  }

  function Joined(sections: seq<string>): string
  {
    if sections == [] then [] else sections[0] + Joined(sections[1..])
  }

  function SectionText(t: string): string
  {
    CDATA_START + t + CDATA_END
  }

  function SectionBytes(sections: seq<string>): string
  {
    if sections == [] then [] else SectionText(sections[0]) + SectionBytes(sections[1..])
  }

  lemma {:induction false} CDataIsSections(parts: seq<string>, lead: string)
    requires parts != []
    ensures SectionBytes(Sections(parts, lead)) == CDATA_START + lead + Join(parts, CDATA_GLUE) + CDATA_END
  {
    if |parts| == 1 {
      assert SectionBytes([lead + parts[0]]) == CDATA_START + (lead + parts[0]) + CDATA_END + SectionBytes([]);
    } else {
      CDataIsSections(parts[1..], ">");
      var first := lead + parts[0] + "]]";
      assert Sections(parts, lead)[1..] == Sections(parts[1..], ">");
      Glue(lead + parts[0], Join(parts[1..], CDATA_GLUE) + CDATA_END);
      Associate(CDATA_START, lead, parts[0], CDATA_GLUE, Join(parts[1..], CDATA_GLUE), CDATA_END);
    }
  }

  lemma Glue(front: string, rest: string)
    ensures CDATA_START + (front + "]]") + CDATA_END + (CDATA_START + ">" + rest) == CDATA_START + front + CDATA_GLUE + rest
  {
    assert ("]]" + CDATA_END) + (CDATA_START + ">") == CDATA_GLUE;
    Regroup(CDATA_START, front, "]]", CDATA_END, CDATA_START + ">", rest);
  }

  lemma Regroup(a: string, b: string, c: string, d: string, e: string, f: string)
    ensures a + (b + c) + d + (e + f) == a + b + ((c + d) + e) + f
  {
  }

  lemma Associate(a: string, b: string, c: string, d: string, e: string, f: string)
    ensures a + (b + c) + d + (e + f) == a + b + (c + d + e) + f
  {
  }

  lemma {:induction false} FindsNone(s: string, pos: nat, t: string)
    requires t != []
    ensures var n := Find(s, pos, t);
            && (forall k: nat :: pos <= k < n ==> !StartsAt(s, k, t)) && (n < |s| ==> StartsAt(s, n, t))
    decreases |s| - pos
  {
    if pos < |s| && !StartsAt(s, pos, t) { FindsNone(s, pos + 1, t); }
  }

  ghost predicate Holds(s: string)
  {
    exists k: nat :: EndAt(s, k)
  }

  /** The sections together are the text, and no section closes early. */
  lemma {:induction false} SectionsAreText(s: string, lead: string)
    requires lead == "" || lead == ">"
    ensures Joined(Sections(Split(s), lead)) == lead + s
    ensures forall t :: t in Sections(Split(s), lead) ==> !Holds(t)
    decreases |s|
  {
    var k := Find(s, 0, CDATA_END);
    FindsNone(s, 0, CDATA_END);
    if k + 3 > |s| {
      assert Joined([lead + s]) == lead + s + Joined([]);
      forall j: nat ensures !EndAt(s, j)
      {
        EndIs(s, j);
      }
      NotHeld(s, lead, "");
      assert lead + s + "" == lead + s;
    } else {
      var part, rest := s[..k], s[k + 3..];
      SectionsAreText(rest, ">");
      EndIs(s, k);
      forall j: nat ensures !EndAt(part, j)
      {
        if EndAt(part, j) { EndIs(s, j); }
      }
      NotHeld(part, lead, "]]");
      FirstSection(s, part, rest, lead);
    }
  }

  lemma FirstSection(s: string, part: string, rest: string, lead: string)
    requires Split(s) == [part] + Split(rest) && s == part + "]]>" + rest
    requires Joined(Sections(Split(rest), ">")) == ">" + rest
    ensures Sections(Split(s), lead) == [lead + part + "]]"] + Sections(Split(rest), ">")
    ensures Joined(Sections(Split(s), lead)) == lead + s
  {
    hide Split;
    assert ([part] + Split(rest))[1..] == Split(rest);
    var first := lead + part + "]]";
    var more := Sections(Split(rest), ">");
    assert ([first] + more)[1..] == more;
    assert first + (">" + rest) == lead + (part + "]]>" + rest);
  }

  lemma NotHeld(part: string, lead: string, end: string)
    requires forall j: nat :: !EndAt(part, j)
    requires (lead == "" || lead == ">") && (end == "" || end == "]]")
    ensures !Holds(lead + part + end)
  {
    var t := lead + part + end;
    forall j: nat ensures !EndAt(t, j)
    {
      if EndAt(t, j) {
        assert j >= |lead|;
        assert EndAt(part, j - |lead|);
      }
    }
  }

  /** A section that does not hold its terminator is read back whole. */
  lemma SectionEnds(s: string, pos: nat, t: string, rest: string)
    requires !Holds(t) && pos <= |s| && s[pos..] == t + (CDATA_END + rest)
    ensures Find(s, pos, CDATA_END) == pos + |t|
  {
    var n := pos + |t|;
    Here(s, pos, t, CDATA_END + rest);
    Here(s, n, CDATA_END, rest);
    forall k: nat | pos <= k < n ensures !StartsAt(s, k, CDATA_END)
    {
      EndIs(s, k);
      if EndAt(s, k) && k + 3 <= n {
        assert EndAt(t, k - pos);
      }
    }
    FindIs(s, pos, CDATA_END, n);
  }
}
