/** The parser's scanner undoes the writer's printer: printed markup is read back piece by piece. */
module XmlScanning {
  import opened Wrappers
  import opened Strings
  import opened XmlText
  import opened XmlRules
  import opened XmlHandling
  import XmlWriting
  import opened XmlParsing

  // ------------------------------------------------------------------ what was printed, as tokens

  function NameOf(a: XmlWriting.RawAttr): Name
  {
    Name(a.prefix, a.local)
  }

  function Decoded(attrs: seq<XmlWriting.RawAttr>): seq<RawAttribute>
  {
    if attrs == [] then [] else [RawAttribute(NameOf(attrs[0]), DecodeEntities(attrs[0].raw))] + Decoded(attrs[1..])
  }

  function TokenOf(m: XmlWriting.Markup): Token
  {
    match m
    case Instruction => Skipped
    case Open(prefix, local, attrs, closed) => OpenTag(Name(prefix, local), Decoded(attrs), closed)
    case Close(prefix, local) => CloseTag(Name(prefix, local))
    case Section(text) => CDataSection(text)
  }

  predicate NameOk(prefix: Option<string>, local: string)
  {
    IsName(local) && (prefix.Some? ==> IsName(prefix.value))
  }

  /** Names are new, and values hold no quote. */
  predicate AttrsOk(attrs: seq<XmlWriting.RawAttr>, seen: set<string>)
    decreases |attrs|
  {
    attrs != [] ==>
      && NameOk(attrs[0].prefix, attrs[0].local) && '"' !in attrs[0].raw
      && NameOf(attrs[0]).Text() !in seen && AttrsOk(attrs[1..], seen + {NameOf(attrs[0]).Text()})
  }

  /** Names and values as such can be read, whether or not they may stand together. */
  predicate AttrsPrintable(attrs: seq<XmlWriting.RawAttr>)
  {
    forall a :: a in attrs ==> NameOk(a.prefix, a.local) && '"' !in a.raw
  }

  ghost predicate Printable(m: XmlWriting.Markup)
  {
    match m
    case Instruction => true
    case Open(prefix, local, attrs, closed) => NameOk(prefix, local) && AttrsOk(attrs, INHERITED)
    case Close(prefix, local) => NameOk(prefix, local)
    case Section(text) => !Holds(text)
  }

  /** Printable, but for the names its attributes may not have. */
  ghost predicate Legible(m: XmlWriting.Markup)
  {
    if m.Open? then NameOk(m.prefix, m.local) && AttrsPrintable(m.attrs) else Printable(m)
  }

  ghost predicate ItemsLegible(items: seq<XmlWriting.Item>)
  {
    forall i :: i in items ==> AllWhite(i.space) && Legible(i.markup)
  }

  ghost predicate ItemsOk(items: seq<XmlWriting.Item>)
  {
    forall i :: i in items ==> AllWhite(i.space) && Printable(i.markup)
  }

  // ------------------------------------------------------------------ reading them back

  /** Something that ends a name. */
  predicate EndsName(rest: string)
  {
    rest != [] && !IsNameChar(rest[0]) && rest[0] != ':'
  }

  lemma NameBack(s: string, pos: nat, prefix: Option<string>, local: string, rest: string)
    requires NameOk(prefix, local) && EndsName(rest)
    requires pos <= |s| && s[pos..] == XmlWriting.PrintName(prefix, local) + rest
    ensures NameAt(s, pos) == Name(prefix, local)
    ensures NameEnd(s, pos) == pos + |XmlWriting.PrintName(prefix, local)|
    ensures pos < |s| && IsNameChar(s[pos])
  {
    hide RunEnd, IsNameChar, IsName;
    match prefix
    case None =>
      WordBack(s, pos, local, rest);
    case Some(p) =>
      assert p + ":" + local + rest == p + (":" + (local + rest));
      Colon();
      WordBack(s, pos, p, ":" + (local + rest));
      BehindColon(s, pos + |p|, local, rest);
  }

  lemma BehindColon(s: string, q: nat, local: string, rest: string)
    requires IsName(local) && EndsName(rest) && q <= |s| && s[q..] == ":" + (local + rest)
    ensures RunEnd(s, q + 1, IsNameChar) == q + 1 + |local| <= |s| && Sub(s, q + 1, q + 1 + |local|) == local
  {
    hide RunEnd, IsNameChar, IsName;
    Here(s, q, ":", local + rest);
    WordBack(s, q + 1, local, rest);
  }

  /** A word ends where something follows that is no part of a name. */
  lemma WordBack(s: string, pos: nat, word: string, rest: string)
    requires IsName(word) && rest != [] && !IsNameChar(rest[0])
    requires pos <= |s| && s[pos..] == word + rest
    ensures RunEnd(s, pos, IsNameChar) == pos + |word| < |s| && Sub(s, pos, pos + |word|) == word
    ensures CharAt(s, pos + |word|) == Some(rest[0]) && s[pos + |word|..] == rest && IsNameChar(s[pos])
  {
    hide RunEnd, IsNameChar;
    RunOver(s, pos, word, rest, IsNameChar);
    Here(s, pos, word, rest);
    assert s[pos] == word[0];
    assert s[pos + |word|] == s[pos + |word|..][0];
  }

  lemma Colon()
    ensures !IsNameChar(':')
  {
  }

  lemma NoWhite(s: string, pos: nat)
    requires pos < |s| && !IsWhite(s[pos])
    ensures White(s, pos) == pos
  {
  }

  lemma OneSpace(s: string, pos: nat, rest: string)
    requires pos <= |s| && s[pos..] == " " + rest && rest != [] && !IsWhite(rest[0])
    ensures White(s, pos) == pos + 1 && pos + 1 < |s| && s[pos + 1..] == rest
  {
    hide RunEnd;
    RunOver(s, pos, " ", rest, IsWhite);
    Here(s, pos, " ", rest);
  }

  lemma NameFirst(prefix: Option<string>, local: string, rest: string)
    requires NameOk(prefix, local)
    ensures var t := XmlWriting.PrintName(prefix, local) + rest; t != [] && IsNameChar(t[0]) && !IsWhite(t[0])
  {
    match prefix
    case None => assert local[0] in local; NameCharRanges(local[0]);
    case Some(p) => assert p[0] in p; NameCharRanges(p[0]);
  }

  /** A quoted text ends at the next quote. */
  lemma QuoteEnds(s: string, pos: nat, raw: string, rest: string)
    requires '"' !in raw && pos <= |s| && s[pos..] == raw + ("\"" + rest)
    ensures RunEnd(s, pos, NotQuote) == pos + |raw| < |s| && s[pos + |raw|] == '"'
    ensures Sub(s, pos, pos + |raw|) == raw && s[pos + |raw| + 1..] == rest
  {
    hide RunEnd;
    RunOver(s, pos, raw, "\"" + rest, NotQuote) by { assert forall c :: c in raw ==> NotQuote(c); }
    Here(s, pos, raw, "\"" + rest);
    Here(s, pos + |raw|, "\"", rest);
  }

  lemma ValueBack(s: string, pos: nat, raw: string, rest: string)
    requires '"' !in raw && pos <= |s| && s[pos..] == "\"" + (raw + ("\"" + rest))
    ensures White(s, pos) == pos && ValueAt(s, pos) && ValueEnd(s, pos) == pos + 1 + |raw|
    ensures Sub(s, pos + 1, ValueEnd(s, pos)) == raw && pos + 2 + |raw| <= |s| && s[pos + 2 + |raw|..] == rest
  {
    hide RunEnd;
    Here(s, pos, "\"", raw + ("\"" + rest));
    assert s[pos] == '"';
    NoWhite(s, pos) by { assert !IsWhite('"'); }
    QuoteEnds(s, pos + 1, raw, rest);
  }

  /** One printed attribute. */
  lemma AttrBack(s: string, pos: nat, a: XmlWriting.RawAttr, rest: string, seen: set<string>)
    requires NameOk(a.prefix, a.local) && '"' !in a.raw && NameOf(a).Text() !in seen
    requires pos <= |s| && s[pos..] == XmlWriting.PrintAttr(a) + rest
    ensures var n := pos + |XmlWriting.PrintAttr(a)|;
            && n <= |s| && s[n..] == rest
            && Attributes(s, pos, seen)
               == BeforeTag(RawAttribute(NameOf(a), DecodeEntities(a.raw)), Attributes(s, n, seen + {NameOf(a).Text()}))
  {
    hide NameAt, NameEnd, ValueAt, ValueEnd, White, DecodeEntities, Attributes, IsName, IsNameChar, IsWhite, XmlWriting.PrintName,
         XmlWriting.PrintAttr, Sub;
    var name := XmlWriting.PrintName(a.prefix, a.local);
    var value := "\"" + (a.raw + ("\"" + rest));
    AttrParts(a, rest);
    NameFirst(a.prefix, a.local, "=" + value);
    OneSpace(s, pos, name + ("=" + value));
    var p := pos + 1;
    EqualsEnds(value);
    NameBack(s, p, a.prefix, a.local, "=" + value);
    Here(s, p, name, "=" + value);
    var q := p + |name|;
    Here(s, q, "=", value);
    assert s[q] == '=';
    NoWhite(s, q) by { NotWhite(); }
    ValueBack(s, q + 1, a.raw, rest);
    AttrConclude(s, pos, p, NameOf(a), q, a.raw, seen);
  }

  lemma AttrConclude(s: string, pos: nat, p: nat, name: Name, q: nat, raw: string, seen: set<string>)
    requires White(s, pos) == p && p < |s| && IsNameChar(s[p])
    requires NameAt(s, p) == name && White(s, NameEnd(s, p)) == q && CharAt(s, q) == Some('=')
    requires White(s, q + 1) == q + 1 && ValueAt(s, q + 1) && ValueEnd(s, q + 1) == q + 2 + |raw|
    requires Sub(s, q + 2, q + 2 + |raw|) == raw && name.Text() !in seen
    ensures Attributes(s, pos, seen)
         == BeforeTag(RawAttribute(name, DecodeEntities(raw)), Attributes(s, q + 3 + |raw|, seen + {name.Text()}))
  {
    hide NameAt, NameEnd, ValueAt, ValueEnd, White, DecodeEntities, Attributes, IsNameChar, Sub, Name.Text;
    AttributesSkipWhite(s, pos, seen);
    AttributesStep(s, p, seen);
  }

  /** A name that was seen before, or that every object has, cannot be read: such an attribute ends the parse,
      whatever its value. */
  lemma SeenNameFails(s: string, pos: nat, a: XmlWriting.RawAttr, rest: string, seen: set<string>)
    requires NameOk(a.prefix, a.local) && '"' !in a.raw && NameOf(a).Text() in seen
    requires pos <= |s| && s[pos..] == XmlWriting.PrintAttr(a) + rest
    ensures Attributes(s, pos, seen) == None
  {
    hide NameAt, NameEnd, ValueAt, ValueEnd, White, DecodeEntities, Attributes, IsName, IsNameChar, IsWhite, XmlWriting.PrintName,
         XmlWriting.PrintAttr, Sub;
    var name := XmlWriting.PrintName(a.prefix, a.local);
    var value := "\"" + (a.raw + ("\"" + rest));
    AttrParts(a, rest);
    NameFirst(a.prefix, a.local, "=" + value);
    OneSpace(s, pos, name + ("=" + value));
    var p := pos + 1;
    EqualsEnds(value);
    NameBack(s, p, a.prefix, a.local, "=" + value);
    AttributesSkipWhite(s, pos, seen);
    AttributesStep(s, p, seen);
  }

  lemma NotWhite()
    ensures !IsWhite('=') && !IsWhite('>') && !IsWhite('/')
  {
  }

  lemma EqualsEnds(value: string)
    ensures EndsName("=" + value)
  {
  }

  lemma AttrParts(a: XmlWriting.RawAttr, rest: string)
    ensures XmlWriting.PrintAttr(a) + rest
         == " " + (XmlWriting.PrintName(a.prefix, a.local) + ("=" + ("\"" + (a.raw + ("\"" + rest)))))
    ensures |XmlWriting.PrintAttr(a)| == 4 + |XmlWriting.PrintName(a.prefix, a.local)| + |a.raw|
  {
    hide XmlWriting.PrintName;
    var n := XmlWriting.PrintName(a.prefix, a.local);
    assert "=\"" == "=" + "\"";
    Nest(" ", n, "=", "\"", a.raw, "\"", rest);
  }

  lemma Nest(a: string, b: string, c: string, d: string, e: string, f: string, g: string)
    ensures (a + b + (c + d) + e + f) + g == a + (b + (c + (d + (e + (f + g)))))
  {
  }

  predicate EndsTag(rest: string)
  {
    rest != [] && (rest[0] == '>' || rest[0] == '/')
  }

  lemma {:induction false} AttrsBack(s: string, pos: nat, attrs: seq<XmlWriting.RawAttr>, rest: string, seen: set<string>)
    requires AttrsOk(attrs, seen) && EndsTag(rest)
    requires pos <= |s| && s[pos..] == XmlWriting.PrintAttrs(attrs) + rest
    ensures Attributes(s, pos, seen) == Some(Tag(Decoded(attrs), pos + |XmlWriting.PrintAttrs(attrs)|))
    decreases |attrs|
  {
    hide Attributes, DecodeEntities, XmlWriting.PrintAttr, IsWhite, IsNameChar, NameOk;
    if attrs == [] {
      assert s[pos] == rest[0];
      NotWhite();
      NotName();
      NoWhite(s, pos);
      AttributesEnd(s, pos, seen);
    } else {
      var a := attrs[0];
      var more := XmlWriting.PrintAttrs(attrs[1..]) + rest;
      assert XmlWriting.PrintAttrs(attrs) + rest == XmlWriting.PrintAttr(a) + more;
      AttrBack(s, pos, a, more, seen);
      AttrsBack(s, pos + |XmlWriting.PrintAttr(a)|, attrs[1..], rest, seen + {NameOf(a).Text()});
    }
  }

  /** A printed list of attributes is read exactly when no name stands in it twice and none is taken already. */
  lemma {:induction false} AttrsIff(s: string, pos: nat, attrs: seq<XmlWriting.RawAttr>, rest: string, seen: set<string>)
    requires AttrsPrintable(attrs) && EndsTag(rest)
    requires pos <= |s| && s[pos..] == XmlWriting.PrintAttrs(attrs) + rest
    ensures Attributes(s, pos, seen).Some? <==> AttrsOk(attrs, seen)
    decreases |attrs|
  {
    hide Attributes, DecodeEntities, XmlWriting.PrintAttr, IsWhite, IsNameChar, NameOk, Name.Text;
    if attrs == [] {
      AttrsBack(s, pos, attrs, rest, seen);
    } else {
      var a := attrs[0];
      assert a in attrs;
      assert forall x :: x in attrs[1..] ==> x in attrs;
      var more := XmlWriting.PrintAttrs(attrs[1..]) + rest;
      assert XmlWriting.PrintAttrs(attrs) + rest == XmlWriting.PrintAttr(a) + more;
      if NameOf(a).Text() in seen { SeenNameFails(s, pos, a, more, seen); } else {
        AttrBack(s, pos, a, more, seen);
        AttrsIff(s, pos + |XmlWriting.PrintAttr(a)|, attrs[1..], rest, seen + {NameOf(a).Text()});
      }
    }
  }

  lemma NotName()
    ensures !IsNameChar('>') && !IsNameChar('/') && !IsNameChar('<') && !IsNameChar(' ')
  {
  }

  lemma OpenBack(s: string, pos: nat, prefix: Option<string>, local: string, attrs: seq<XmlWriting.RawAttr>, closed: bool, rest: string)
    requires NameOk(prefix, local) && AttrsOk(attrs, INHERITED)
    requires pos <= |s| && s[pos..] == XmlWriting.PrintMarkup(XmlWriting.Open(prefix, local, attrs, closed)) + rest
    ensures Markup(s, pos) == Some(Lexed(OpenTag(Name(prefix, local), Decoded(attrs), closed),
                                         pos + |XmlWriting.PrintMarkup(XmlWriting.Open(prefix, local, attrs, closed))|))
  {
    hide Attributes, NameAt, NameEnd, XmlWriting.PrintName, XmlWriting.PrintAttrs, AttrsOk, NameOk, Markup, Decoded, EndsName, CharAt,
         XmlWriting.TagClosing, XmlWriting.PrintMarkup, EndsTag;
    var name, text := XmlWriting.PrintName(prefix, local), XmlWriting.PrintAttrs(attrs);
    var end := XmlWriting.TagClosing(closed);
    OpenParts(prefix, local, attrs, closed, rest);
    AttrsEnd(attrs, end + rest);
    OpenName(s, pos, prefix, local, text + (end + rest));
    var q := pos + 1 + |name|;
    AttrsBack(s, q, attrs, end + rest, INHERITED);
    Here(s, q, text, end + rest);
    ClosingBack(s, q + |text|, closed, rest);
    OpenConclude(s, pos, Name(prefix, local), Tag(Decoded(attrs), q + |text|), closed);
  }

  /** A tag with a name it may not have is no markup. */
  lemma OpenFails(s: string, pos: nat, prefix: Option<string>, local: string, attrs: seq<XmlWriting.RawAttr>, closed: bool, rest: string)
    requires NameOk(prefix, local) && AttrsPrintable(attrs) && !AttrsOk(attrs, INHERITED)
    requires pos <= |s| && s[pos..] == XmlWriting.PrintMarkup(XmlWriting.Open(prefix, local, attrs, closed)) + rest
    ensures Markup(s, pos) == None
  {
    hide Attributes, NameAt, NameEnd, XmlWriting.PrintName, XmlWriting.PrintAttrs, AttrsOk, NameOk, Markup, Decoded, EndsName, CharAt,
         XmlWriting.TagClosing, XmlWriting.PrintMarkup, EndsTag, AttrsPrintable;
    var name, text := XmlWriting.PrintName(prefix, local), XmlWriting.PrintAttrs(attrs);
    var end := XmlWriting.TagClosing(closed);
    OpenParts(prefix, local, attrs, closed, rest);
    AttrsEnd(attrs, end + rest);
    OpenName(s, pos, prefix, local, text + (end + rest));
    AttrsIff(s, pos + 1 + |name|, attrs, end + rest, INHERITED);
    OpenRefused(s, pos);
  }

  lemma OpenRefused(s: string, pos: nat)
    requires CharAt(s, pos + 1) !in {Some('/'), Some('?'), Some('!')}
    requires Attributes(s, NameEnd(s, pos + 1), INHERITED) == None
    ensures Markup(s, pos) == None
  {
    hide NameAt, NameEnd, Attributes, TagEnd, White, Find;
  }

  lemma OpenParts(prefix: Option<string>, local: string, attrs: seq<XmlWriting.RawAttr>, closed: bool, rest: string)
    ensures var m := XmlWriting.PrintMarkup(XmlWriting.Open(prefix, local, attrs, closed));
            var name, text, end := XmlWriting.PrintName(prefix, local), XmlWriting.PrintAttrs(attrs), XmlWriting.TagClosing(closed);
            m + rest == "<" + (name + (text + (end + rest))) && |m| == 1 + |name| + |text| + |end|
    ensures EndsTag(XmlWriting.TagClosing(closed) + rest) && |XmlWriting.TagClosing(closed)| == if closed then 2 else 1
  {
    hide XmlWriting.PrintName, XmlWriting.PrintAttrs;
    Nested("<", XmlWriting.PrintName(prefix, local), XmlWriting.PrintAttrs(attrs), XmlWriting.TagClosing(closed), rest);
  }

  lemma CloseParts(prefix: Option<string>, local: string, rest: string)
    ensures var m := XmlWriting.PrintMarkup(XmlWriting.Close(prefix, local));
            var name := XmlWriting.PrintName(prefix, local);
            m + rest == "</" + (name + (">" + rest)) && |m| == 3 + |name|
  {
    hide XmlWriting.PrintName;
    var name := XmlWriting.PrintName(prefix, local);
    assert ("</" + name + ">") + rest == "</" + (name + (">" + rest));
  }

  lemma OpenName(s: string, pos: nat, prefix: Option<string>, local: string, rest: string)
    requires NameOk(prefix, local) && EndsName(rest)
    requires pos <= |s| && s[pos..] == "<" + (XmlWriting.PrintName(prefix, local) + rest)
    ensures CharAt(s, pos + 1) !in {Some('/'), Some('?'), Some('!')}
    ensures NameAt(s, pos + 1) == Name(prefix, local)
    ensures NameEnd(s, pos + 1) == pos + 1 + |XmlWriting.PrintName(prefix, local)| <= |s|
    ensures s[pos + 1 + |XmlWriting.PrintName(prefix, local)|..] == rest
  {
    hide NameAt, NameEnd, XmlWriting.PrintName, NameOk, IsNameChar, EndsName;
    var name := XmlWriting.PrintName(prefix, local);
    Here(s, pos, "<", name + rest);
    var p := pos + 1;
    NameFirst(prefix, local, rest);
    assert s[p] == s[p..][0];
    NameBack(s, p, prefix, local, rest);
    Here(s, p, name, rest);
    NotMarkupStart(s[p]);
  }

  lemma ClosingBack(s: string, e: nat, closed: bool, rest: string)
    requires e <= |s| && s[e..] == XmlWriting.TagClosing(closed) + rest
    ensures if closed then CharAt(s, e) == Some('/') && CharAt(s, e + 1) == Some('>') else CharAt(s, e) == Some('>')
  {
    var end := XmlWriting.TagClosing(closed);
    Here(s, e, end, rest);
    assert s[e] == end[0];
    if closed { assert s[e + 1] == end[1]; }
  }

  lemma OpenConclude(s: string, pos: nat, name: Name, t: Tag, closed: bool)
    requires CharAt(s, pos + 1) !in {Some('/'), Some('?'), Some('!')}
    requires NameAt(s, pos + 1) == name && Attributes(s, NameEnd(s, pos + 1), INHERITED) == Some(t)
    requires if closed then CharAt(s, t.end) == Some('/') && CharAt(s, t.end + 1) == Some('>') else CharAt(s, t.end) == Some('>')
    ensures Markup(s, pos) == Some(Lexed(OpenTag(name, t.attrs, closed), t.end + (if closed then 2 else 1)))
  {
    hide NameAt, NameEnd, Attributes, TagEnd, White, Find;
  }

  lemma NotMarkupStart(c: char)
    requires IsNameChar(c)
    ensures c != '/' && c != '?' && c != '!'
  {
  }

  lemma AttrsEnd(attrs: seq<XmlWriting.RawAttr>, rest: string)
    requires EndsTag(rest)
    ensures EndsName(XmlWriting.PrintAttrs(attrs) + rest)
  {
    hide XmlWriting.PrintName;
    if attrs != [] { AttrParts(attrs[0], XmlWriting.PrintAttrs(attrs[1..]) + rest); }
  }

  lemma Nested(a: string, b: string, c: string, d: string, e: string)
    ensures (a + (b + (c + d))) + e == a + (b + (c + (d + e)))
  {
  }

  lemma CloseBack(s: string, pos: nat, prefix: Option<string>, local: string, rest: string)
    requires NameOk(prefix, local)
    requires pos <= |s| && s[pos..] == XmlWriting.PrintMarkup(XmlWriting.Close(prefix, local)) + rest
    ensures Markup(s, pos) == Some(Lexed(CloseTag(Name(prefix, local)),
                                         pos + |XmlWriting.PrintMarkup(XmlWriting.Close(prefix, local))|))
  {
    hide NameAt, NameEnd, XmlWriting.PrintName, NameOk, IsNameChar, White, Markup, IsWhite, XmlWriting.PrintMarkup, EndsName;
    var name := XmlWriting.PrintName(prefix, local);
    CloseParts(prefix, local, rest);
    Here(s, pos, "</", name + (">" + rest));
    assert s[pos + 1] == '/';
    var p := pos + 2;
    NameFirst(prefix, local, ">" + rest);
    assert s[p] == s[p..][0];
    NoWhite(s, p);
    GreaterEnds(rest);
    NameBack(s, p, prefix, local, ">" + rest);
    Here(s, p, name, ">" + rest);
    var e := p + |name|;
    Here(s, e, ">", rest);
    assert s[e] == '>';
    NotWhite();
    NoWhite(s, e);
    CloseConclude(s, pos, Name(prefix, local), e);
  }

  lemma CloseConclude(s: string, pos: nat, name: Name, e: nat)
    requires CharAt(s, pos + 1) == Some('/') && White(s, pos + 2) == pos + 2 && NameAt(s, pos + 2) == name
    requires White(s, NameEnd(s, pos + 2)) == e && CharAt(s, e) == Some('>')
    ensures Markup(s, pos) == Some(Lexed(CloseTag(name), e + 1))
  {
    hide NameAt, NameEnd, Attributes, TagEnd, White, Find;
  }

  lemma GreaterEnds(rest: string)
    ensures EndsName(">" + rest)
  {
  }

  lemma SectionBack(s: string, pos: nat, text: string, rest: string)
    requires !Holds(text)
    requires pos <= |s| && s[pos..] == SectionText(text) + rest
    ensures Markup(s, pos) == Some(Lexed(CDataSection(text), pos + |SectionText(text)|))
  {
    hide Find, StartsAt, Holds, Attributes, TagEnd, NameAt, NameEnd, White;
    var start := "<![CDATA[";
    assert SectionText(text) + rest == start + (text + (CDATA_END + rest));
    Here(s, pos, start, text + (CDATA_END + rest));
    assert s[pos + 1] == start[1] == '!' && s[pos + 2] == start[2] == '[';
    assert StartsAt(s, pos + 2, "[CDATA[") by { SectionHead(s, pos); }
    SectionEnds(s, pos + 9, text, rest);
    Here(s, pos + 9, text, CDATA_END + rest);
    Here(s, pos + 9 + |text|, CDATA_END, rest);
    assert StartsAt(s, pos + 9 + |text|, CDATA_END) by { EndStands(s, pos + 9 + |text|); }
  }

  lemma EndStands(s: string, pos: nat)
    requires pos + 3 <= |s| && s[pos..pos + 3] == CDATA_END
    ensures StartsAt(s, pos, CDATA_END)
  {
  }

  lemma SectionHead(s: string, pos: nat)
    requires pos + 9 <= |s| && s[pos..pos + 9] == "<![CDATA["
    ensures StartsAt(s, pos + 2, "[CDATA[")
  {
    assert s[pos + 2..pos + 9] == s[pos..pos + 9][2..];
    assert "<![CDATA["[2..] == "[CDATA[";
  }

  lemma InstructionParts(rest: string)
    ensures XmlWriting.PrintMarkup(XmlWriting.Instruction) + rest
         == "<?" + Version(rest)
    ensures |XmlWriting.PrintMarkup(XmlWriting.Instruction)| == 21
  {
    assert XmlWriting.PrintMarkup(XmlWriting.Instruction) == "<?xml version=\"1.0\"?>";
  }

  lemma InstructionBack(s: string, pos: nat, rest: string)
    requires pos <= |s| && s[pos..] == XmlWriting.PrintMarkup(XmlWriting.Instruction) + rest
    ensures Markup(s, pos) == Some(Lexed(Skipped, pos + |XmlWriting.PrintMarkup(XmlWriting.Instruction)|))
  {
    hide XmlWriting.PrintMarkup, TagEnd, Attributes, Find, White, NameAt, NameEnd;
    InstructionParts(rest);
    Here(s, pos, "<?", Version(rest));
    assert s[pos + 1] == '?';
    VersionEnds(s, pos + 2, rest);
  }

  function Version(rest: string): string
  {
    "xml version=" + ("\"" + ("1.0" + ("\"" + ("?" + (">" + rest)))))
  }

  lemma VersionEnds(s: string, a: nat, rest: string)
    requires a <= |s| && s[a..] == Version(rest)
    ensures TagEnd(s, a) == a + 19
  {
    hide RunEnd, TagEnd;
    var r4 := "?" + (">" + rest);
    var r3 := "\"" + r4;
    var r2 := "1.0" + r3;
    var r1 := "\"" + r2;
    VersionPlain("xml version=");
    RunOver(s, a, "xml version=", r1, NotTagEnd);
    Here(s, a, "xml version=", r1);
    var b := a + 12;
    Here(s, b, "\"", r2);
    assert s[b] == '"';
    TagEndStep(s, a);
    QuoteEnds(s, b + 1, "1.0", r4);
    LastEnds(s, b + 5, rest);
  }

  lemma LastEnds(s: string, a: nat, rest: string)
    requires a <= |s| && s[a..] == "?" + (">" + rest)
    ensures TagEnd(s, a) == a + 2
  {
    hide RunEnd, TagEnd;
    RunOver(s, a, "?", ">" + rest, NotTagEnd);
    Here(s, a, "?", ">" + rest);
    Here(s, a + 1, ">", rest);
    assert s[a + 1] == '>';
    TagEndStep(s, a);
  }

  lemma VersionPlain(t: string)
    requires t == "xml version="
    ensures forall c :: c in t ==> NotTagEnd(c)
  {
  }

  /** Every printable piece is read back, and the scanner stops right behind it. */
  lemma MarkupBack(s: string, pos: nat, m: XmlWriting.Markup, rest: string)
    requires Printable(m) && pos <= |s| && s[pos..] == XmlWriting.PrintMarkup(m) + rest
    ensures Markup(s, pos) == Some(Lexed(TokenOf(m), pos + |XmlWriting.PrintMarkup(m)|))
  {
    hide Markup, NameOk, AttrsOk, Decoded, XmlWriting.PrintName, XmlWriting.PrintAttrs, SectionText, Holds;
    match m
    case Instruction => InstructionBack(s, pos, rest);
    case Open(prefix, local, attrs, closed) => OpenBack(s, pos, prefix, local, attrs, closed, rest);
    case Close(prefix, local) => CloseBack(s, pos, prefix, local, rest);
    case Section(text) => SectionBack(s, pos, text, rest);
  }

  // ------------------------------------------------------------------ white space between pieces does nothing

  lemma WhiteText(g: Setting, st: State, space: string)
    requires StateOk(g, st) && AllWhite(space)
    ensures WithText(g, st, space) == st
  {
    hide Trim, StackOk;
    TrimWhite(space);
    var f := st.frames[|st.frames| - 1];
    NoText();
    assert f.characters + "" == f.characters;
    assert f.(characters := f.characters) == f;
    assert WithLast(st.frames, f) == st.frames;
  }

  lemma NoText()
    ensures DecodeEntities("") == ""
  {
  }

  /** The pieces handled one after the other. */
  function Run(g: Setting, st: State, items: seq<XmlWriting.Item>): (r: Option<State>)
    requires StateOk(g, st)
    ensures r.Some? ==> StateOk(g, r.value)
    decreases |items|
  {
    if items == [] then Some(st)
    else
      StepKeeps(g, st, TokenOf(items[0].markup));
      match Step(g, st, TokenOf(items[0].markup))
      case None => None
      case Some(st1) => Run(g, st1, items[1..])
  }

  lemma MarkupStarts(m: XmlWriting.Markup, rest: string)
    ensures var t := XmlWriting.PrintMarkup(m) + rest; t != [] && t[0] == '<'
  {
    hide XmlWriting.PrintName, XmlWriting.PrintAttrs;
  }

  /** Parsing a printed list is handling its pieces, and then the rest of the document. */
  lemma {:induction false} ItemsBack(g: Setting, s: string, pos: nat, st: State, items: seq<XmlWriting.Item>, rest: string)
    requires StateOk(g, st) && ItemsOk(items)
    requires pos <= |s| && s[pos..] == XmlWriting.Print(items) + rest
    ensures pos + |XmlWriting.Print(items)| <= |s|
    ensures Parse(g, s, pos, st) == match Run(g, st, items)
                                    case None => None
                                    case Some(st1) => Parse(g, s, pos + |XmlWriting.Print(items)|, st1)
    decreases |items|
  {
    hide Markup, Step, StackOk, Printable, XmlWriting.PrintMarkup, Parse, WithText, TokenOf, AllWhite, RunEnd;
    if items != [] {
      var i, more := items[0], XmlWriting.Print(items[1..]) + rest;
      assert i in items;
      assert XmlWriting.Print(items) + rest == i.space + (XmlWriting.PrintMarkup(i.markup) + more);
      MarkupStarts(i.markup, more);
      SpaceRun(s, pos, i.space, XmlWriting.PrintMarkup(i.markup) + more);
      var n := pos + |i.space|;
      WhiteText(g, st, i.space);
      ParseStep(g, s, pos, st);
      MarkupBack(s, n, i.markup, more);
      Here(s, n, XmlWriting.PrintMarkup(i.markup), more);
      var st1 := Step(g, st, TokenOf(i.markup));
      if st1.Some? {
        StepKeeps(g, st, TokenOf(i.markup));
        ItemsBack(g, s, n + |XmlWriting.PrintMarkup(i.markup)|, st1.value, items[1..], rest);
      } else {
        Here(s, pos, XmlWriting.Print(items), rest);
      }
    }
  }

  /** A printed piece is read exactly when it is printable. */
  lemma MarkupIff(s: string, pos: nat, m: XmlWriting.Markup, rest: string)
    requires Legible(m) && pos <= |s| && s[pos..] == XmlWriting.PrintMarkup(m) + rest
    ensures Markup(s, pos).Some? <==> Printable(m)
  {
    hide Markup, NameOk, AttrsOk, AttrsPrintable, Decoded, XmlWriting.PrintMarkup;
    if Printable(m) { MarkupBack(s, pos, m, rest); }
    else { OpenFails(s, pos, m.prefix, m.local, m.attrs, m.closed, rest); }
  }

  /** A list with a piece that cannot be read ends the parse, whatever stands before and behind it. */
  lemma {:induction false} ItemsFail(g: Setting, s: string, pos: nat, st: State, items: seq<XmlWriting.Item>, rest: string)
    requires StateOk(g, st) && ItemsLegible(items) && !ItemsOk(items)
    requires pos <= |s| && s[pos..] == XmlWriting.Print(items) + rest
    ensures Parse(g, s, pos, st) == None
    decreases |items|
  {
    hide Markup, Step, StackOk, Printable, Legible, XmlWriting.PrintMarkup, Parse, WithText, TokenOf, AllWhite, RunEnd;
    var i, more := items[0], XmlWriting.Print(items[1..]) + rest;
    assert i in items;
    assert forall x :: x in items[1..] ==> x in items;
    assert XmlWriting.Print(items) + rest == i.space + (XmlWriting.PrintMarkup(i.markup) + more);
    MarkupStarts(i.markup, more);
    SpaceRun(s, pos, i.space, XmlWriting.PrintMarkup(i.markup) + more);
    var n := pos + |i.space|;
    WhiteText(g, st, i.space);
    ParseStep(g, s, pos, st);
    MarkupIff(s, n, i.markup, more);
    if Printable(i.markup) {
      assert !ItemsOk(items[1..]) by { RestFails(items); }
      MarkupBack(s, n, i.markup, more);
      Here(s, n, XmlWriting.PrintMarkup(i.markup), more);
      var st1 := Step(g, st, TokenOf(i.markup));
      if st1.Some? {
        StepKeeps(g, st, TokenOf(i.markup));
        ItemsFail(g, s, n + |XmlWriting.PrintMarkup(i.markup)|, st1.value, items[1..], rest);
      }
    }
  }

  lemma RestFails(items: seq<XmlWriting.Item>)
    requires items != [] && !ItemsOk(items) && AllWhite(items[0].space) && Printable(items[0].markup)
    ensures !ItemsOk(items[1..])
  {
    hide Printable, AllWhite;
    assert items == [items[0]] + items[1..];
  }

  lemma SpaceRun(s: string, pos: nat, space: string, rest: string)
    requires AllWhite(space) && rest != [] && rest[0] == '<'
    requires pos <= |s| && s[pos..] == space + rest
    ensures pos + |space| < |s| && s[pos..pos + |space|] == space && s[pos + |space|..] == rest
    ensures RunEnd(s, pos, NotOpening) == pos + |space|
  {
    hide RunEnd;
    Here(s, pos, space, rest);
    RunOver(s, pos, space, rest, NotOpening);
  }

  lemma {:induction false} RunAppend(g: Setting, st: State, a: seq<XmlWriting.Item>, b: seq<XmlWriting.Item>)
    requires StateOk(g, st)
    ensures Run(g, st, a + b) == match Run(g, st, a) case None => None case Some(st1) => Run(g, st1, b)
    decreases |a|
  {
    hide Step, StackOk, TokenOf;
    if a == [] {
      assert a + b == b;
    } else {
      assert (a + b)[1..] == a[1..] + b;
      var st1 := Step(g, st, TokenOf(a[0].markup));
      if st1.Some? {
        StepKeeps(g, st, TokenOf(a[0].markup));
        RunAppend(g, st1.value, a[1..], b);
      }
    }
  }
}
