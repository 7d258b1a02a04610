/** Documents as anyone may write them, as trees, and how the parser's scanner reads their markup. */
module XmlGrammar {
  import opened Wrappers
  import opened Strings
  import opened XmlText
  import opened XmlRules
  import opened XmlParsing
  import XmlScanning

  /** The value of an attribute, with white space around its equals sign. */
  datatype Value = Value(before: string, behind: string, quote: char, raw: string)

  datatype Attr = Attr(space: string, name: Name, value: Option<Value>)

  /** What an instruction or a declaration holds: text, and texts between quotes. */
  datatype Chunk = Plain(text: string) | Quoted(quote: char, text: string)

  datatype EndTag = EndTag(before: string, name: Name, behind: string)

  datatype Node =
    | Text(raw: string)
    | CData(text: string)
    | Comment(text: string)
    | Aside(mark: char, chunks: seq<Chunk>)
    | Element(name: Name, attrs: seq<Attr>, space: string, closed: bool, nodes: seq<Node>, end: EndTag)

  // ------------------------------------------------------------------ as text

  function AttrText(a: Attr): string
  {
    a.space + (a.name.Text() + ValueText(a.value))
  }

  function ValueText(v: Option<Value>): string
  {
    match v
    case None => ""
    case Some(v) => v.before + ("=" + (v.behind + ([v.quote] + (v.raw + [v.quote]))))
  }

  function AttrsText(attrs: seq<Attr>): string
  {
    if attrs == [] then "" else AttrText(attrs[0]) + AttrsText(attrs[1..])
  }

  function ChunkText(c: Chunk): string
  {
    match c
    case Plain(text) => text
    case Quoted(quote, text) => [quote] + (text + [quote])
  }

  function ChunksText(chunks: seq<Chunk>): string
  {
    if chunks == [] then "" else ChunkText(chunks[0]) + ChunksText(chunks[1..])
  }

  function OpenText(name: Name, attrs: seq<Attr>, space: string, closed: bool): string
  {
    "<" + (name.Text() + (AttrsText(attrs) + (space + (if closed then "/>" else ">"))))
  }

  function EndText(end: EndTag): string
  {
    "</" + (end.before + (end.name.Text() + (end.behind + ">")))
  }

  function NodeText(n: Node): string
  {
    match n
    case Text(raw) => raw
    case CData(text) => CDATA_START + (text + CDATA_END)
    case Comment(text) => "<!--" + (text + "-->")
    case Aside(mark, chunks) => "<" + ([mark] + (ChunksText(chunks) + ">"))
    case Element(name, attrs, space, closed, nodes, end) =>
      OpenText(name, attrs, space, closed) + (if closed then "" else NodesText(nodes) + EndText(end))
  }

  function NodesText(nodes: seq<Node>): string
  {
    if nodes == [] then "" else NodeText(nodes[0]) + NodesText(nodes[1..])
  }

  // ------------------------------------------------------------------ what may be written

  predicate NameOk(name: Name)
  {
    IsName(name.local) && (name.prefix.Some? ==> IsName(name.prefix.value))
  }

  predicate AttrOk(a: Attr)
  {
    && a.space != "" && AllWhite(a.space) && NameOk(a.name)
    && (a.value.Some? ==>
          var v := a.value.value;
          AllWhite(v.before) && AllWhite(v.behind) && (v.quote == '"' || v.quote == '\'') && v.quote !in v.raw)
  }

  predicate ChunkOk(c: Chunk)
  {
    match c
    case Plain(text) => forall x :: x in text ==> NotTagEnd(x)
    case Quoted(quote, text) => (quote == '"' || quote == '\'') && quote !in text
  }

  ghost predicate HoldsArrow(s: string)
  {
    exists k: nat :: ArrowAt(s, k)
  }

  predicate ArrowAt(s: string, k: nat)
  {
    k + 3 <= |s| && s[k] == '-' && s[k + 1] == '-' && s[k + 2] == '>'
  }

  /** Text holds no markup, and a declaration is neither a comment nor a section. */
  ghost predicate NodeOk(n: Node)
  {
    match n
    case Text(raw) => '<' !in raw
    case CData(text) => !Holds(text)
    case Comment(text) => !HoldsArrow(text)
    case Aside(mark, chunks) =>
      && (mark == '?' || mark == '!') && (forall c :: c in chunks ==> ChunkOk(c))
      && (mark == '!' ==> (ChunksText(chunks) + ">")[0] != '-' && (ChunksText(chunks) + ">")[0] != '[')
    case Element(name, attrs, space, closed, nodes, end) =>
      && NameOk(name) && (forall a :: a in attrs ==> AttrOk(a)) && AllWhite(space)
      && if closed then nodes == [] else AllWhite(end.before) && NameOk(end.name) && AllWhite(end.behind) && NodesOk(nodes)
  }

  /** Two texts next to each other would be one. */
  ghost predicate NodesOk(nodes: seq<Node>)
  {
    nodes != [] ==> NodeOk(nodes[0]) && NodesOk(nodes[1..]) && !(nodes[0].Text? && |nodes| > 1 && nodes[1].Text?)
  }

  // ------------------------------------------------------------------ attributes

  /** An attribute without a value has the empty one. */
  function ValueOf(a: Attr): string
  {
    match a.value case None => "" case Some(v) => DecodeEntities(v.raw)
  }

  function Reads(attrs: seq<Attr>): seq<RawAttribute>
  {
    if attrs == [] then [] else [RawAttribute(attrs[0].name, ValueOf(attrs[0]))] + Reads(attrs[1..])
  }

  /** No name stands there twice, and none is taken. */
  predicate Fresh(attrs: seq<Attr>, taken: set<string>)
  {
    attrs != [] ==> attrs[0].name.Text() !in taken && Fresh(attrs[1..], taken + {attrs[0].name.Text()})
  }

  /** What may follow a name without a value: white space, and no equals sign behind it. */
  ghost predicate Follows(rest: string, space: string, more: string)
  {
    && rest == space + more && AllWhite(space) && more != [] && more[0] != '=' && !IsWhite(more[0])
    && (space != "" || more[0] == '/' || more[0] == '>')
  }

  lemma WhiteOver(s: string, pos: nat, space: string, more: string)
    requires pos <= |s| && s[pos..] == space + more && AllWhite(space) && more != [] && !IsWhite(more[0])
    ensures White(s, pos) == pos + |space| < |s| && s[pos + |space|..] == more && s[pos + |space|] == more[0]
  {
    hide RunEnd;
    RunOver(s, pos, space, more, IsWhite);
    Here(s, pos, space, more);
    assert s[pos + |space|] == s[pos + |space|..][0];
  }

  lemma NameRead(s: string, pos: nat, name: Name, rest: string)
    requires NameOk(name) && XmlScanning.EndsName(rest)
    requires pos <= |s| && s[pos..] == name.Text() + rest
    ensures NameAt(s, pos) == name && NameEnd(s, pos) == pos + |name.Text()| <= |s|
    ensures pos < |s| && IsNameChar(s[pos]) && s[pos + |name.Text()|..] == rest
  {
    hide NameAt, NameEnd, IsNameChar, IsName;
    XmlScanning.NameBack(s, pos, name.prefix, name.local, rest);
    Here(s, pos, name.Text(), rest);
  }

  lemma NameStarts(name: Name, rest: string)
    requires NameOk(name)
    ensures var t := name.Text() + rest; t != [] && IsNameChar(t[0]) && !IsWhite(t[0]) && t[0] !in "<>/=?!:'\"&"
  {
    var c := if name.prefix.Some? then name.prefix.value[0] else name.local[0];
    match name.prefix
    case None => assert name.local[0] in name.local;
    case Some(p) => assert p[0] in p;
    NameCharRanges(c);
    assert (name.Text() + rest)[0] == c;
  }

  lemma WhiteIsNoName(c: char)
    requires IsWhite(c) || c == '=' || c == '/' || c == '>'
    ensures !IsNameChar(c) && c != ':'
  {
  }

  lemma NoNameGoesOn(space: string, more: string)
    requires AllWhite(space) && more != [] && (space != "" || more[0] == '=' || more[0] == '/' || more[0] == '>')
    ensures XmlScanning.EndsName(space + more)
  {
    hide IsWhite, IsNameChar;
    if space != "" { assert space[0] in space; }
    WhiteIsNoName((space + more)[0]);
  }

  /** A value between its quotes. */
  lemma ValueRead(s: string, pos: nat, quote: char, raw: string, rest: string)
    requires (quote == '"' || quote == '\'') && quote !in raw
    requires pos <= |s| && s[pos..] == [quote] + (raw + ([quote] + rest))
    ensures ValueAt(s, pos) && ValueEnd(s, pos) == pos + 1 + |raw| && Sub(s, pos + 1, pos + 1 + |raw|) == raw
    ensures pos + 2 + |raw| <= |s| && s[pos + 2 + |raw|..] == rest
  {
    hide RunEnd;
    Here(s, pos, [quote], raw + ([quote] + rest));
    Here(s, pos + 1, raw, [quote] + rest);
    Here(s, pos + 1 + |raw|, [quote], rest);
    assert s[pos] == quote && s[pos + 1 + |raw|] == quote;
    if quote == '"' {
      RunOver(s, pos + 1, raw, [quote] + rest, NotQuote) by { assert forall c :: c in raw ==> NotQuote(c); }
    } else {
      RunOver(s, pos + 1, raw, [quote] + rest, NotApostrophe) by { assert forall c :: c in raw ==> NotApostrophe(c); }
    }
  }

  lemma AttrParts(a: Attr, rest: string)
    ensures AttrText(a) + rest == a.space + (a.name.Text() + (ValueText(a.value) + rest))
    ensures a.value.Some? ==>
              var v := a.value.value;
              && ValueText(a.value) + rest == v.before + ("=" + (v.behind + ([v.quote] + (v.raw + ([v.quote] + rest)))))
              && |ValueText(a.value)| == |v.before| + |v.behind| + |v.raw| + 3
    ensures |AttrText(a)| == |a.space| + |a.name.Text()| + |ValueText(a.value)|
  {
    hide Name.Text;
    if a.value.Some? {
      var v := a.value.value;
      Nested6(v.before, "=", v.behind, [v.quote], v.raw, [v.quote], rest);
    }
    Nested3(a.space, a.name.Text(), ValueText(a.value), rest);
  }

  lemma Nested3(a: string, b: string, c: string, d: string)
    ensures (a + (b + c)) + d == a + (b + (c + d))
  {
  }

  lemma Nested6(a: string, b: string, c: string, d: string, e: string, f: string, g: string)
    ensures (a + (b + (c + (d + (e + f))))) + g == a + (b + (c + (d + (e + (f + g)))))
  {
  }

  /** One attribute is read, or refused for its name. */
  lemma AttrRead(s: string, pos: nat, a: Attr, rest: string, seen: set<string>, space: string, more: string)
    requires AttrOk(a) && Follows(rest, space, more)
    requires pos <= |s| && s[pos..] == AttrText(a) + rest
    ensures var n := pos + |AttrText(a)|;
            && n <= |s| && s[n..] == rest
            && Attributes(s, pos, seen)
               == if a.name.Text() in seen then None
                  else BeforeTag(RawAttribute(a.name, ValueOf(a)), Attributes(s, n, seen + {a.name.Text()}))
  {
    hide NameAt, NameEnd, ValueAt, ValueEnd, White, DecodeEntities, Attributes, IsName, IsNameChar, IsWhite, AttrText, ValueText, Sub,
         Name.Text, AllWhite, NameOk, XmlScanning.EndsName;
    var value := ValueText(a.value) + rest;
    AttrParts(a, rest);
    NameStarts(a.name, value);
    WhiteOver(s, pos, a.space, a.name.Text() + value);
    var p := pos + |a.space|;
    AttributesSkipWhite(s, pos, seen);
    AttributesStep(s, p, seen);
    Here(s, pos, AttrText(a), rest);
    match a.value
    case None => BareRead(s, p, a, rest, space, more, seen);
    case Some(v) => ValuedRead(s, p, a, rest, seen);
  }

  lemma BareRead(s: string, p: nat, a: Attr, rest: string, space: string, more: string, seen: set<string>)
    requires AttrOk(a) && a.value.None? && Follows(rest, space, more)
    requires p <= |s| && s[p..] == a.name.Text() + (ValueText(a.value) + rest)
    ensures NameAt(s, p) == a.name && CharAt(s, White(s, NameEnd(s, p))) != Some('=')
    ensures Attributes(s, White(s, NameEnd(s, p)), seen + {a.name.Text()})
         == Attributes(s, p + |a.name.Text()| + |ValueText(a.value)|, seen + {a.name.Text()})
  {
    hide NameAt, NameEnd, White, Attributes, IsName, IsNameChar, IsWhite, Name.Text, AllWhite, NameOk, XmlScanning.EndsName;
    assert ValueText(a.value) == "";
    assert "" + rest == rest;
    NoNameGoesOn(space, more);
    NameRead(s, p, a.name, rest);
    WhiteOver(s, p + |a.name.Text()|, space, more);
    AttributesSkipWhite(s, p + |a.name.Text()|, seen + {a.name.Text()});
  }

  lemma ValuedRead(s: string, p: nat, a: Attr, rest: string, seen: set<string>)
    requires AttrOk(a) && a.value.Some? && p <= |s| && s[p..] == a.name.Text() + (ValueText(a.value) + rest)
    ensures NameAt(s, p) == a.name
    ensures var q := White(s, NameEnd(s, p));
            var v := White(s, q + 1);
            && CharAt(s, q) == Some('=') && ValueAt(s, v) && Sub(s, v + 1, ValueEnd(s, v)) == a.value.value.raw
            && ValueEnd(s, v) + 1 == p + |a.name.Text()| + |ValueText(a.value)|
  {
    hide NameAt, NameEnd, ValueAt, ValueEnd, White, IsName, IsNameChar, IsWhite, ValueText, Sub, Name.Text, AllWhite, NameOk,
         XmlScanning.EndsName;
    var v := a.value.value;
    var quoted := [v.quote] + (v.raw + ([v.quote] + rest));
    AttrParts(a, rest);
    EqualsIsPlain();
    NoNameGoesOn(v.before, "=" + (v.behind + quoted));
    NameRead(s, p, a.name, ValueText(a.value) + rest);
    var q := p + |a.name.Text()|;
    WhiteOver(s, q, v.before, "=" + (v.behind + quoted));
    BehindEquals(s, q + |v.before|, v, rest);
  }

  lemma BehindEquals(s: string, q: nat, v: Value, rest: string)
    requires AllWhite(v.behind) && (v.quote == '"' || v.quote == '\'') && v.quote !in v.raw
    requires q <= |s| && s[q..] == "=" + (v.behind + ([v.quote] + (v.raw + ([v.quote] + rest))))
    ensures CharAt(s, q) == Some('=')
    ensures var n := White(s, q + 1);
            && n == q + 1 + |v.behind| && ValueAt(s, n) && ValueEnd(s, n) == n + 1 + |v.raw|
            && Sub(s, n + 1, ValueEnd(s, n)) == v.raw
  {
    hide ValueAt, ValueEnd, White, IsWhite, Sub, AllWhite;
    var quoted := [v.quote] + (v.raw + ([v.quote] + rest));
    Here(s, q, "=", v.behind + quoted);
    assert s[q] == "="[0];
    QuoteIsPlain(v.quote);
    WhiteOver(s, q + 1, v.behind, quoted);
    ValueRead(s, q + 1 + |v.behind|, v.quote, v.raw, rest);
  }

  lemma EqualsIsPlain()
    ensures !IsWhite('=')
  {
  }

  lemma QuoteIsPlain(c: char)
    requires c == '"' || c == '\''
    ensures !IsWhite(c)
  {
  }

  predicate Closes(more: string)
  {
    more != [] && (more[0] == '/' || more[0] == '>')
  }

  /** What stands behind an attribute: the next one, or the end of the tag. */
  lemma AttrFollows(attrs: seq<Attr>, space: string, more: string)
    requires (forall a :: a in attrs ==> AttrOk(a)) && AllWhite(space) && Closes(more)
    ensures var w := if attrs == [] then space else attrs[0].space;
            exists m :: Follows(AttrsText(attrs) + (space + more), w, m)
  {
    hide Name.Text, NameOk, ValueText, AllWhite;
    if attrs == [] {
      assert Follows(AttrsText(attrs) + (space + more), space, more);
    } else {
      var a, rest := attrs[0], AttrsText(attrs[1..]) + (space + more);
      assert a in attrs;
      AttrParts(a, rest);
      assert AttrsText(attrs) + (space + more) == AttrText(a) + rest;
      NameStarts(a.name, ValueText(a.value) + rest);
      assert Follows(AttrsText(attrs) + (space + more), a.space, a.name.Text() + (ValueText(a.value) + rest));
    }
  }

  /** A list of attributes is read, white space behind it included, exactly when its names are fresh. */
  lemma {:induction false} AttrsRead(s: string, pos: nat, attrs: seq<Attr>, space: string, more: string, seen: set<string>)
    requires (forall a :: a in attrs ==> AttrOk(a)) && AllWhite(space) && Closes(more)
    requires pos <= |s| && s[pos..] == AttrsText(attrs) + (space + more)
    ensures Attributes(s, pos, seen)
         == if Fresh(attrs, seen) then Some(Tag(Reads(attrs), pos + |AttrsText(attrs)| + |space|)) else None
    decreases |attrs|
  {
    hide Attributes, DecodeEntities, AttrText, IsWhite, IsNameChar, NameOk, Name.Text, White, Follows, AttrOk, AllWhite, ValueOf;
    if attrs == [] {
      CloseIsPlain(more);
      WhiteOver(s, pos, space, more);
      AttributesSkipWhite(s, pos, seen);
      AttributesEnd(s, pos + |space|, seen);
    } else {
      var a := attrs[0];
      assert a in attrs;
      assert forall x :: x in attrs[1..] ==> x in attrs;
      var rest := AttrsText(attrs[1..]) + (space + more);
      assert AttrsText(attrs) + (space + more) == AttrText(a) + rest;
      AttrFollows(attrs[1..], space, more);
      var w := if attrs[1..] == [] then space else attrs[1..][0].space;
      var m :| Follows(rest, w, m);
      AttrRead(s, pos, a, rest, seen, w, m);
      AttrsRead(s, pos + |AttrText(a)|, attrs[1..], space, more, seen + {a.name.Text()});
    }
  }

  lemma CloseIsPlain(more: string)
    requires Closes(more)
    ensures !IsWhite(more[0]) && !IsNameChar(more[0])
  {
  }

  // ------------------------------------------------------------------ markup

  lemma OpenRead(s: string, pos: nat, name: Name, attrs: seq<Attr>, space: string, closed: bool, rest: string)
    requires NameOk(name) && (forall a :: a in attrs ==> AttrOk(a)) && AllWhite(space)
    requires pos <= |s| && s[pos..] == OpenText(name, attrs, space, closed) + rest
    ensures Markup(s, pos)
         == if Fresh(attrs, INHERITED) then Some(Lexed(OpenTag(name, Reads(attrs), closed), pos + |OpenText(name, attrs, space, closed)|))
            else None
  {
    hide Attributes, NameAt, NameEnd, NameOk, Markup, XmlScanning.EndsName, Name.Text, AttrsText, Fresh, Reads, AttrOk, AllWhite, IsNameChar;
    hide CharAt, OpenText;
    var text := AttrsText(attrs);
    var more := (if closed then "/>" else ">") + rest;
    OpenParts(name, attrs, space, closed, rest);
    Here(s, pos, "<", name.Text() + (text + (space + more)));
    FollowsEndsName(attrs, space, more);
    OpenName(s, pos, name, text + (space + more));
    var q := pos + 1 + |name.Text()|;
    AttrsRead(s, q, attrs, space, more, INHERITED);
    OpenEnds(s, q, text, space, closed, rest);
    OpenConclude(s, pos, closed);
  }

  lemma OpenParts(name: Name, attrs: seq<Attr>, space: string, closed: bool, rest: string)
    ensures OpenText(name, attrs, space, closed) + rest
         == "<" + (name.Text() + (AttrsText(attrs) + (space + ((if closed then "/>" else ">") + rest))))
    ensures |OpenText(name, attrs, space, closed)| == |name.Text()| + |AttrsText(attrs)| + |space| + (if closed then 3 else 2)
    ensures Closes((if closed then "/>" else ">") + rest)
  {
    hide Name.Text, AttrsText;
    Nested5("<", name.Text(), AttrsText(attrs), space, if closed then "/>" else ">", rest);
  }

  lemma OpenEnds(s: string, q: nat, text: string, space: string, closed: bool, rest: string)
    requires q <= |s| && s[q..] == text + (space + ((if closed then "/>" else ">") + rest))
    ensures var e := q + |text| + |space|;
            if closed then CharAt(s, e) == Some('/') && CharAt(s, e + 1) == Some('>') else CharAt(s, e) == Some('>')
  {
    var more := (if closed then "/>" else ">") + rest;
    Here(s, q, text, space + more);
    Here(s, q + |text|, space, more);
    XmlScanning.ClosingBack(s, q + |text| + |space|, closed, rest);
  }

  lemma OpenName(s: string, pos: nat, name: Name, rest: string)
    requires NameOk(name) && XmlScanning.EndsName(rest) && pos < |s| && s[pos + 1..] == name.Text() + rest
    ensures CharAt(s, pos + 1) !in {Some('/'), Some('?'), Some('!')}
    ensures NameAt(s, pos + 1) == name && NameEnd(s, pos + 1) == pos + 1 + |name.Text()| <= |s|
    ensures s[pos + 1 + |name.Text()|..] == rest
  {
    hide NameAt, NameEnd, NameOk, XmlScanning.EndsName, Name.Text, IsNameChar;
    NameStarts(name, rest);
    assert s[pos + 1] == s[pos + 1..][0];
    NameRead(s, pos + 1, name, rest);
  }

  lemma OpenConclude(s: string, pos: nat, closed: bool)
    requires CharAt(s, pos + 1) !in {Some('/'), Some('?'), Some('!')}
    requires var t := Attributes(s, NameEnd(s, pos + 1), INHERITED);
             t.Some? ==> var e := t.value.end;
                         if closed then CharAt(s, e) == Some('/') && CharAt(s, e + 1) == Some('>') else CharAt(s, e) == Some('>')
    ensures Markup(s, pos) == match Attributes(s, NameEnd(s, pos + 1), INHERITED)
                              case None => None
                              case Some(t) => Some(Lexed(OpenTag(NameAt(s, pos + 1), t.attrs, closed), t.end + (if closed then 2 else 1)))
  {
    hide NameAt, NameEnd, Attributes, TagEnd, White, Find;
  }

  lemma FollowsEndsName(attrs: seq<Attr>, space: string, more: string)
    requires (forall a :: a in attrs ==> AttrOk(a)) && AllWhite(space) && Closes(more)
    ensures XmlScanning.EndsName(AttrsText(attrs) + (space + more))
  {
    hide Name.Text, NameOk, ValueText, AttrText;
    if attrs == [] {
      NoNameGoesOn(space, more);
    } else {
      var a, rest := attrs[0], AttrsText(attrs[1..]) + (space + more);
      assert a in attrs;
      AttrParts(a, rest);
      assert AttrsText(attrs) + (space + more) == AttrText(a) + rest;
      NameStarts(a.name, ValueText(a.value) + rest);
      NoNameGoesOn(a.space, a.name.Text() + (ValueText(a.value) + rest));
    }
  }

  lemma Nested5(a: string, b: string, c: string, d: string, e: string, f: string)
    ensures (a + (b + (c + (d + e)))) + f == a + (b + (c + (d + (e + f))))
  {
  }

  lemma EndRead(s: string, pos: nat, end: EndTag, rest: string)
    requires AllWhite(end.before) && NameOk(end.name) && AllWhite(end.behind)
    requires pos <= |s| && s[pos..] == EndText(end) + rest
    ensures Markup(s, pos) == Some(Lexed(CloseTag(end.name), pos + |EndText(end)|))
  {
    hide NameAt, NameEnd, NameOk, IsNameChar, White, Markup, IsWhite, XmlScanning.EndsName, Name.Text, AllWhite;
    var name := end.name.Text();
    Nested5("</", end.before, name, end.behind, ">", rest);
    Here(s, pos, "</", end.before + (name + (end.behind + (">" + rest))));
    assert s[pos + 1] == "</"[1];
    NameStarts(end.name, end.behind + (">" + rest));
    WhiteOver(s, pos + 2, end.before, name + (end.behind + (">" + rest)));
    var n := pos + 2 + |end.before|;
    NoNameGoesOn(end.behind, ">" + rest);
    NameRead(s, n, end.name, end.behind + (">" + rest));
    CloseIsPlain(">" + rest);
    WhiteOver(s, n + |name|, end.behind, ">" + rest);
    EndConclude(s, pos, n, n + |name| + |end.behind|);
  }

  lemma EndConclude(s: string, pos: nat, n: nat, e: nat)
    requires CharAt(s, pos + 1) == Some('/') && White(s, pos + 2) == n
    requires White(s, NameEnd(s, n)) == e && CharAt(s, e) == Some('>')
    ensures Markup(s, pos) == Some(Lexed(CloseTag(NameAt(s, n)), e + 1))
  {
    hide NameAt, NameEnd, Attributes, TagEnd, White, Find;
  }

  lemma ArrowIs(s: string, k: nat)
    ensures StartsAt(s, k, "-->") <==> ArrowAt(s, k)
  {
    if k + 3 <= |s| {
      var t := s[k..k + 3];
      assert t[0] == s[k] && t[1] == s[k + 1] && t[2] == s[k + 2];
      if ArrowAt(s, k) { assert t == "-->"; }
    }
  }

  /** An arrow in front of another stands in the text. */
  lemma ArrowShifts(s: string, pos: nat, text: string, k: nat)
    requires pos <= k < pos + |text| <= |s| && s[pos..pos + |text|] == text && ArrowAt(s, pos + |text|)
    ensures ArrowAt(s, k) ==> ArrowAt(text, k - pos)
  {
    assert forall j :: 0 <= j < |text| ==> s[pos + j] == text[j];
  }

  lemma CommentEnds(s: string, pos: nat, text: string, rest: string)
    requires !HoldsArrow(text) && pos <= |s| && s[pos..] == text + ("-->" + rest)
    ensures Find(s, pos, "-->") == pos + |text| && StartsAt(s, pos + |text|, "-->")
  {
    var n := pos + |text|;
    Here(s, pos, text, "-->" + rest);
    Here(s, n, "-->", rest);
    ArrowIs(s, n);
    forall k: nat | pos <= k < n ensures !StartsAt(s, k, "-->")
    {
      ArrowIs(s, k);
      ArrowShifts(s, pos, text, k);
    }
    FindIs(s, pos, "-->", n);
  }

  lemma CommentRead(s: string, pos: nat, text: string, rest: string)
    requires !HoldsArrow(text) && pos <= |s| && s[pos..] == ("<!--" + (text + "-->")) + rest
    ensures Markup(s, pos) == Some(Lexed(Skipped, pos + |text| + 7))
  {
    hide Find, StartsAt, HoldsArrow, Attributes, TagEnd, NameAt, NameEnd, White;
    Nested3("<!--", text, "-->", rest);
    Here(s, pos, "<!--", text + ("-->" + rest));
    assert s[pos + 1] == "<!--"[1] && s[pos + 2] == "<!--"[2] && s[pos + 3] == "<!--"[3];
    CommentEnds(s, pos + 4, text, rest);
  }

  /** Where text goes on, the end of a tag is looked for behind it. */
  lemma PlainSkipped(s: string, pos: nat, text: string, rest: string)
    requires pos <= |s| && s[pos..] == text + rest && forall x :: x in text ==> NotTagEnd(x)
    ensures pos + |text| <= |s| && TagEnd(s, pos) == TagEnd(s, pos + |text|)
  {
    hide TagEnd, RunEnd;
    Here(s, pos, text, rest);
    forall k | pos <= k < pos + |text| ensures NotTagEnd(s[k]) { assert s[k] == text[k - pos] && text[k - pos] in text; }
    RunGoesOn(s, pos, NotTagEnd, pos + |text|);
    TagEndStep(s, pos);
    TagEndStep(s, pos + |text|);
  }

  lemma {:induction false} RunGoesOn(s: string, pos: nat, p: char -> bool, n: nat)
    requires pos <= n <= |s| && forall k :: pos <= k < n ==> p(s[k])
    ensures RunEnd(s, pos, p) == RunEnd(s, n, p)
    decreases n - pos
  {
    if pos < n { RunGoesOn(s, pos + 1, p, n); }
  }

  lemma QuotedSkipped(s: string, pos: nat, quote: char, text: string, rest: string)
    requires (quote == '"' || quote == '\'') && quote !in text
    requires pos <= |s| && s[pos..] == [quote] + (text + ([quote] + rest))
    ensures pos + |text| + 2 <= |s| && TagEnd(s, pos) == TagEnd(s, pos + |text| + 2)
  {
    hide TagEnd, RunEnd;
    Here(s, pos, [quote], text + ([quote] + rest));
    Here(s, pos + 1, text, [quote] + rest);
    assert s[pos] == quote;
    RunEndIs(s, pos, NotTagEnd, pos);
    TagEndStep(s, pos);
    if quote == '"' {
      RunOver(s, pos + 1, text, [quote] + rest, NotQuote) by { assert forall c :: c in text ==> NotQuote(c); }
    } else {
      RunOver(s, pos + 1, text, [quote] + rest, NotApostrophe) by { assert forall c :: c in text ==> NotApostrophe(c); }
    }
  }

  lemma ChunkSkipped(s: string, pos: nat, c: Chunk, rest: string)
    requires ChunkOk(c) && pos <= |s| && s[pos..] == ChunkText(c) + rest
    ensures pos + |ChunkText(c)| <= |s| && TagEnd(s, pos) == TagEnd(s, pos + |ChunkText(c)|)
  {
    hide TagEnd;
    match c
    case Plain(text) => PlainSkipped(s, pos, text, rest);
    case Quoted(quote, text) =>
      Nested3([quote], text, [quote], rest);
      QuotedSkipped(s, pos, quote, text, rest);
  }

  lemma {:induction false} ChunksSkipped(s: string, pos: nat, chunks: seq<Chunk>, rest: string)
    requires (forall c :: c in chunks ==> ChunkOk(c)) && pos <= |s| && s[pos..] == ChunksText(chunks) + (">" + rest)
    ensures TagEnd(s, pos) == pos + |ChunksText(chunks)| + 1
    decreases |chunks|
  {
    hide TagEnd, ChunkText, ChunkOk;
    if chunks == [] {
      assert s[pos] == s[pos..][0] == '>';
      RunEndIs(s, pos, NotTagEnd, pos);
      TagEndStep(s, pos);
    } else {
      var c, more := chunks[0], ChunksText(chunks[1..]) + (">" + rest);
      assert c in chunks && forall x :: x in chunks[1..] ==> x in chunks;
      assert ChunksText(chunks) + (">" + rest) == ChunkText(c) + more;
      Here(s, pos, ChunkText(c), more);
      ChunkSkipped(s, pos, c, more);
      ChunksSkipped(s, pos + |ChunkText(c)|, chunks[1..], rest);
    }
  }

  lemma AsideRead(s: string, pos: nat, mark: char, chunks: seq<Chunk>, rest: string)
    requires NodeOk(Aside(mark, chunks)) && pos <= |s| && s[pos..] == NodeText(Aside(mark, chunks)) + rest
    ensures Markup(s, pos) == Some(Lexed(Skipped, pos + |NodeText(Aside(mark, chunks))|))
  {
    hide TagEnd, ChunksText, ChunkOk, Attributes, Find, NameAt, NameEnd, White;
    var text := ChunksText(chunks);
    assert NodeText(Aside(mark, chunks)) + rest == "<" + ([mark] + (text + (">" + rest)));
    Here(s, pos, "<", [mark] + (text + (">" + rest)));
    Here(s, pos + 1, [mark], text + (">" + rest));
    assert s[pos + 1] == mark;
    ChunksSkipped(s, pos + 2, chunks, rest);
    assert (text + ">")[0] == (text + (">" + rest))[0] == s[pos + 2..][0] == s[pos + 2];
    SectionOpens(s, pos + 2);
  }

  lemma SectionOpens(s: string, pos: nat)
    requires pos < |s|
    ensures StartsAt(s, pos, "[CDATA[") ==> s[pos] == '['
  {
    if pos + 7 <= |s| { assert s[pos] == s[pos..pos + 7][0]; }
  }

  lemma CDataRead(s: string, pos: nat, text: string, rest: string)
    requires !Holds(text) && pos <= |s| && s[pos..] == (CDATA_START + (text + CDATA_END)) + rest
    ensures Markup(s, pos) == Some(Lexed(CDataSection(text), pos + |text| + 12))
  {
    hide Markup, Holds;
    assert SectionText(text) == CDATA_START + (text + CDATA_END);
    XmlScanning.SectionBack(s, pos, text, rest);
  }
}
