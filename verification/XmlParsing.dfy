/** The XML parser: a cursor over the document that feeds a content handler. */
module XmlParsing {
  import opened Wrappers
  import opened Strings
  import opened XmlText
  import opened XmlRules
  import opened XmlHandling

  // ------------------------------------------------------------------ characters the scanner stops at

  predicate NotOpening(c: char) { c != '<' }

  predicate NotApostrophe(c: char) { c != '\'' }

  predicate NotQuote(c: char) { c != '"' }

  predicate NotTagEnd(c: char) { c != '\'' && c != '"' && c != '>' }

  // ------------------------------------------------------------------ names and attributes

  datatype Name = Name(prefix: Option<string>, local: string)
  {
    function Text(): string
    {
      match prefix case None => local case Some(p) => p + ":" + local
    }
  }

  function NameAt(s: string, pos: nat): Name
  {
    var n := RunEnd(s, pos, IsNameChar);
    if CharAt(s, n) == Some(':') then Name(Some(Sub(s, pos, n)), Sub(s, n + 1, RunEnd(s, n + 1, IsNameChar)))
    else Name(None, Sub(s, pos, n))
  }

  function NameEnd(s: string, pos: nat): (n: nat)
    ensures pos <= n && (pos < |s| && IsNameChar(s[pos]) ==> pos < n)
  {
    var n := RunEnd(s, pos, IsNameChar);
    if CharAt(s, n) == Some(':') then RunEnd(s, n + 1, IsNameChar) else n
  }

  function White(s: string, pos: nat): (n: nat)
    ensures pos <= n
  {
    RunEnd(s, pos, IsWhite)
  }

  /** Where the closing quote of the value at `pos` stands. */
  function ValueEnd(s: string, pos: nat): (n: nat)
    ensures pos < n
  {
    if CharAt(s, pos) == Some('\'') then RunEnd(s, pos + 1, NotApostrophe) else RunEnd(s, pos + 1, NotQuote)
  }

  /** A value between two quotes of the same kind. */
  predicate ValueAt(s: string, pos: nat)
  {
    (CharAt(s, pos) == Some('\'') || CharAt(s, pos) == Some('"')) && CharAt(s, ValueEnd(s, pos)) == CharAt(s, pos)
  }

  datatype RawAttribute = RawAttribute(name: Name, value: string)

  datatype Tag = Tag(attrs: seq<RawAttribute>, end: nat)

  function BeforeTag(a: RawAttribute, r: Option<Tag>): Option<Tag>
  {
    match r case None => None case Some(t) => Some(Tag([a] + t.attrs, t.end))
  }

  /** The attributes from `pos` on; a name that was seen before, or that every object has, is an error. */
  function Attributes(s: string, pos: nat, seen: set<string>): (r: Option<Tag>)
    ensures r.Some? ==> r.value.end >= pos
    decreases |s| - pos
  {
    var p := White(s, pos);
    if p >= |s| || !IsNameChar(s[p]) then Some(Tag([], p))
    else
      var name := NameAt(s, p);
      var q := White(s, NameEnd(s, p));
      if CharAt(s, q) == Some('=') then
        var v := White(s, q + 1);
        if !ValueAt(s, v) || name.Text() in seen then None
        else BeforeTag(RawAttribute(name, DecodeEntities(Sub(s, v + 1, ValueEnd(s, v)))),
                       Attributes(s, ValueEnd(s, v) + 1, seen + {name.Text()}))
      else if name.Text() in seen then None
      else BeforeTag(RawAttribute(name, ""), Attributes(s, q, seen + {name.Text()}))
  }

  /** The end of a tag that is skipped; quotes may hold a `>`. */
  function TagEnd(s: string, pos: nat): (n: nat)
    ensures pos < n
    decreases |s| - pos
  {
    var n := RunEnd(s, pos, NotTagEnd);
    if CharAt(s, n) == Some('\'') then TagEnd(s, RunEnd(s, n + 1, NotApostrophe) + 1)
    else if CharAt(s, n) == Some('"') then TagEnd(s, RunEnd(s, n + 1, NotQuote) + 1)
    else n + 1
  }

  // ------------------------------------------------------------------ markup

  datatype Token =
    | OpenTag(name: Name, attrs: seq<RawAttribute>, closed: bool)
    | CloseTag(name: Name)
    | CDataSection(text: string)
    | Skipped

  datatype Lexed = Lexed(token: Token, next: nat)

  /** The markup behind the `<` at `pos`. */
  function Markup(s: string, pos: nat): (r: Option<Lexed>)
    ensures r.Some? ==> r.value.next > pos
  {
    var p := pos + 1;
    if CharAt(s, p) == Some('/') then
      var n := White(s, p + 1);
      var e := White(s, NameEnd(s, n));
      if CharAt(s, e) == Some('>') then Some(Lexed(CloseTag(NameAt(s, n)), e + 1)) else None
    else if CharAt(s, p) == Some('?') then Some(Lexed(Skipped, TagEnd(s, p + 1)))
    else if CharAt(s, p) == Some('!') then
      if CharAt(s, p + 1) == Some('-') then
        if CharAt(s, p + 2) != Some('-') then None
        else
          var e := Find(s, p + 3, "-->");
          if StartsAt(s, e, "-->") && p + 3 <= e then Some(Lexed(Skipped, e + 3)) else None
      else if StartsAt(s, p + 1, "[CDATA[") then
        var e := Find(s, p + 8, CDATA_END);
        if StartsAt(s, e, CDATA_END) && p + 8 <= e then Some(Lexed(CDataSection(Sub(s, p + 8, e)), e + 3)) else None
      else Some(Lexed(Skipped, TagEnd(s, p + 1)))
    else
      match Attributes(s, NameEnd(s, p), INHERITED)
      case None => None
      case Some(t) =>
        if CharAt(s, t.end) == Some('/') then
          if CharAt(s, t.end + 1) == Some('>') then Some(Lexed(OpenTag(NameAt(s, p), t.attrs, true), t.end + 2)) else None
        else if CharAt(s, t.end) == Some('>') then Some(Lexed(OpenTag(NameAt(s, p), t.attrs, false), t.end + 1))
        else None
  }

  // ------------------------------------------------------------------ namespaces

  /** An open element: its name, the prefixes its tag declares, and the default namespace inside it. */
  datatype Scope = Scope(qName: string, namespaces: map<string, Option<string>>, default: Option<string>)

  const DOCUMENT := Scope("#document", map[], None)

  /** A declared namespace; an empty one is none. */
  function UriOf(value: string): Option<string>
  {
    if value == "" then None else Some(value)
  }

  /** The prefix declarations among the attributes; the last one of a prefix counts. */
  function Prefixes(attrs: seq<RawAttribute>): map<string, Option<string>>
  {
    if attrs == [] then map[]
    else
      var last := attrs[|attrs| - 1];
      var before := Prefixes(attrs[..|attrs| - 1]);
      if last.name.prefix == Some("xmlns") then before[last.name.local := UriOf(last.value)] else before
  }

  predicate IsDefault(a: RawAttribute)
  {
    a.name.prefix != Some("xmlns") && (a.name.prefix.None? || a.name.prefix.value == "") && a.name.local == "xmlns"
  }

  function DefaultNs(attrs: seq<RawAttribute>, inherited: Option<string>): Option<string>
  {
    if attrs == [] then inherited
    else
      var last := attrs[|attrs| - 1];
      if IsDefault(last) then UriOf(last.value) else DefaultNs(attrs[..|attrs| - 1], inherited)
  }

  /** The innermost declaration of a prefix. */
  function Lookup(scopes: seq<Scope>, prefix: string): Option<string>
  {
    if scopes == [] then None
    else if prefix in scopes[|scopes| - 1].namespaces then scopes[|scopes| - 1].namespaces[prefix]
    else Lookup(scopes[..|scopes| - 1], prefix)
  }

  function NamespaceOf(scopes: seq<Scope>, prefix: Option<string>): Option<string>
    requires scopes != []
  {
    if prefix.None? || prefix.value == "" then scopes[|scopes| - 1].default else Lookup(scopes, prefix.value)
  }

  /** Declarations have a namespace of their own; attributes without a prefix have none. */
  function AttributeNs(scopes: seq<Scope>, a: RawAttribute): Option<string>
  {
    if a.name.prefix == Some("xmlns") || IsDefault(a) then Some(XMLNS)
    else if a.name.prefix.None? || a.name.prefix.value == "" then None
    else Lookup(scopes, a.name.prefix.value)
  }

  function Resolved(scopes: seq<Scope>, attrs: seq<RawAttribute>): seq<Attribute>
  {
    if attrs == [] then []
    else [Attribute(attrs[0].name.local, AttributeNs(scopes, attrs[0]), attrs[0].value)] + Resolved(scopes, attrs[1..])
  }

  // ------------------------------------------------------------------ the run

  /** What rules a parse. */
  datatype Setting = Setting(schema: Schema, validate: bool)

  /** The open elements as the parser and as the handler see them. */
  datatype State = State(scopes: seq<Scope>, frames: seq<Frame>)

  ghost predicate StateOk(g: Setting, st: State)
  {
    st.scopes != [] && |st.scopes| == |st.frames| && st.scopes[0] == DOCUMENT && StackOk(g.schema, st.frames)
  }

  function Entered(scopes: seq<Scope>, name: Name, attrs: seq<RawAttribute>): seq<Scope>
    requires scopes != []
  {
    scopes + [Scope(name.Text(), Prefixes(attrs), DefaultNs(attrs, scopes[|scopes| - 1].default))]
  }

  /** One piece of markup. */
  function Step(g: Setting, st: State, t: Token): Option<State>
    requires StateOk(g, st)
  {
    match t
    case Skipped => Some(st)
    case CDataSection(text) => Some(st.(frames := Sectioned(g.schema, st.frames, text)))
    case CloseTag(name) =>
      if name.Text() != st.scopes[|st.scopes| - 1].qName || |st.scopes| < 2 then None
      else Leave(g, st)
    case OpenTag(name, attrs, closed) =>
      var scopes := Entered(st.scopes, name, attrs);
      assert FrameOk(g.schema, st.frames[|st.frames| - 1]);
      match Opened(g.schema, g.validate, st.frames, name.local, NamespaceOf(scopes, name.prefix), Resolved(scopes, attrs))
      case None => None
      case Some(frames) =>
        StartKeeps(g.schema, g.validate, st.frames, name.local, NamespaceOf(scopes, name.prefix), Resolved(scopes, attrs));
        if closed then Leave(g, State(scopes, frames)) else Some(State(scopes, frames))
  }

  function Leave(g: Setting, st: State): Option<State>
    requires StateOk(g, st) && |st.scopes| >= 2
  {
    match Closed(g.schema, g.validate, st.frames)
    case None => None
    case Some(frames) => Some(State(st.scopes[..|st.scopes| - 1], frames))
  }

  function WithText(g: Setting, st: State, s: string): State
    requires StateOk(g, st)
  {
    if s == "" then st else st.(frames := Texted(g.schema, st.frames, s))
  }

  lemma TextKeeps(g: Setting, st: State, s: string)
    requires StateOk(g, st)
    ensures StateOk(g, WithText(g, st, s))
  {
    hide StackOk, DecodeEntities, Trim;
    var f := st.frames[|st.frames| - 1];
    CharactersKeep(g.schema, st.frames, f.characters + DecodeEntities(Trim(s)));
  }

  lemma LeaveKeeps(g: Setting, st: State)
    requires StateOk(g, st) && |st.scopes| >= 2
    ensures Leave(g, st).Some? ==> StateOk(g, Leave(g, st).value)
  {
    hide StackOk;
    EndKeeps(g.schema, g.validate, st.frames);
  }

  lemma StepKeeps(g: Setting, st: State, t: Token)
    requires StateOk(g, st)
    ensures Step(g, st, t).Some? ==> StateOk(g, Step(g, st, t).value)
  {
    hide StackOk, Opened, Leave, Resolved, Prefixes, DefaultNs, NamespaceOf;
    match t
    case Skipped =>
    case CDataSection(text) =>
      var f := st.frames[|st.frames| - 1];
      CharactersKeep(g.schema, st.frames, f.characters + text);
    case CloseTag(name) => if |st.scopes| >= 2 { LeaveKeeps(g, st); }
    case OpenTag(name, attrs, closed) =>
      var scopes := Entered(st.scopes, name, attrs);
      LastOk(g.schema, st.frames);
      StartKeeps(g.schema, g.validate, st.frames, name.local, NamespaceOf(scopes, name.prefix), Resolved(scopes, attrs));
      var frames := Opened(g.schema, g.validate, st.frames, name.local, NamespaceOf(scopes, name.prefix), Resolved(scopes, attrs));
      if frames.Some? && closed { LeaveKeeps(g, State(scopes, frames.value)); }
  }

  /** The rest of the document from `pos` on. */
  function Parse(g: Setting, s: string, pos: nat, st: State): (r: Option<State>)
    requires StateOk(g, st)
    ensures r.Some? ==> StateOk(g, r.value)
    decreases |s| - pos
  {
    if pos >= |s| then Some(st)
    else
      var n := RunEnd(s, pos, NotOpening);
      var st1 := WithText(g, st, s[pos..n]);
      TextKeeps(g, st, s[pos..n]);
      if n >= |s| then Some(st1)
      else
        match Markup(s, n)
        case None => None
        case Some(l) =>
          StepKeeps(g, st1, l.token);
          match Step(g, st1, l.token)
          case None => None
          case Some(st2) => Parse(g, s, l.next, st2)
  }

  /** The document read by the rules of `root`; the object is that of the innermost open element. */
  function Parsed(g: Setting, root: nat, s: string): Option<Option<Obj>>
    requires root < |g.schema|
  {
    match Parse(g, s, 0, State([DOCUMENT], [RootFrame(g.schema, root)]))
    case None => None
    case Some(st) => Finished(g.schema, g.validate, st.frames)
  }

  // ------------------------------------------------------------------ the parser as it runs

  method ReadQName(reader: StringReader) returns (name: Name)
    modifies reader`position
    ensures name == NameAt(reader.data, old(reader.position)) && reader.position == NameEnd(reader.data, old(reader.position))
  {
    var prefixOrLocal := reader.SubstringWhile(IsNameChar);
    var colon := reader.CharIf(':');
    if colon {
      var local := reader.SubstringWhile(IsNameChar);
      name := Name(Some(prefixOrLocal), local);
    } else {
      name := Name(None, prefixOrLocal);
    }
  }

  method ReadAttributeValue(reader: StringReader) returns (value: Option<string>)
    modifies reader`position
    ensures value.Some? <==> ValueAt(reader.data, old(reader.position))
    ensures value.Some? ==>
              && reader.position == ValueEnd(reader.data, old(reader.position)) + 1
              && value.value == DecodeEntities(Sub(reader.data, old(reader.position) + 1, ValueEnd(reader.data, old(reader.position))))
  {
    var quote := reader.Next();
    if quote != Some('\'') && quote != Some('"') { return None; }
    var text;
    if quote == Some('\'') {
      text := reader.SubstringWhile(NotApostrophe);
    } else {
      text := reader.SubstringWhile(NotQuote);
    }
    var ok := reader.ReadChar(quote.value);
    return if ok then Some(DecodeEntities(text)) else None;
  }

  /** Reads the attributes of a tag and notes the namespaces they declare. */
  method XmlAttributes(reader: StringReader, inherited: Option<string>)
    returns (attrs: Option<seq<RawAttribute>>, namespaces: map<string, Option<string>>, default: Option<string>)
    modifies reader`position
    ensures var t := Attributes(reader.data, old(reader.position), INHERITED);
            && (attrs.Some? <==> t.Some?)
            && (t.Some? ==> attrs.value == t.value.attrs && reader.position == t.value.end
                            && namespaces == Prefixes(t.value.attrs) && default == DefaultNs(t.value.attrs, inherited))
  {
    hide Attributes, NameAt, ValueAt, ValueEnd, NameEnd, DecodeEntities, RunEnd, Prefixes, DefaultNs, Name.Text;
    var done: seq<RawAttribute> := [];
    var seen := INHERITED;
    namespaces, default := map[], inherited;
    ghost var all := Attributes(reader.data, reader.position, INHERITED);
    NoneYet(all, inherited);
    AttributesSkipWhite(reader.data, reader.position, seen);
    var start := reader.While(IsWhite);
    while reader.position < |reader.data| && IsNameChar(reader.data[reader.position])
      invariant all == After(done, Attributes(reader.data, reader.position, seen))
      invariant White(reader.data, reader.position) == reader.position
      invariant namespaces == Prefixes(done) && default == DefaultNs(done, inherited)
      decreases |reader.data| - reader.position
    {
      AttributesStep(reader.data, reader.position, seen);
      var name := ReadQName(reader);
      var start := reader.While(IsWhite);
      var value := "";
      var eq := reader.CharIf('=');
      if eq {
        start := reader.While(IsWhite);
        var read := ReadAttributeValue(reader);
        if read.None? {
          return None, namespaces, default;
        }
        value := read.value;
      }
      var attr := RawAttribute(name, value);
      if name.prefix == Some("xmlns") {
        namespaces := namespaces[name.local := UriOf(value)];
      } else if (name.prefix.None? || name.prefix.value == "") && name.local == "xmlns" {
        default := UriOf(value);
      }
      if name.Text() in seen {
        return None, namespaces, default;
      }
      OneMoreAttr(done, attr, Attributes(reader.data, reader.position, seen + {name.Text()}), inherited);
      seen := seen + {name.Text()};
      done := done + [attr];
      AttributesSkipWhite(reader.data, reader.position, seen);
      start := reader.While(IsWhite);
    }
    AttributesEnd(reader.data, reader.position, seen);
    LastAttr(done, reader.position);
    return Some(done), namespaces, default;
  }

  lemma LastAttr(done: seq<RawAttribute>, end: nat)
    ensures After(done, Some(Tag([], end))) == Some(Tag(done, end))
  {
    assert done + [] == done;
  }

  lemma AttributesEnd(s: string, p: nat, seen: set<string>)
    requires White(s, p) == p && (p >= |s| || !IsNameChar(s[p]))
    ensures Attributes(s, p, seen) == Some(Tag([], p))
  {
  }

  /** One attribute. */
  lemma AttributesStep(s: string, p: nat, seen: set<string>)
    requires White(s, p) == p && p < |s| && IsNameChar(s[p])
    ensures var name := NameAt(s, p);
            var q := White(s, NameEnd(s, p));
            var v := White(s, q + 1);
            Attributes(s, p, seen) ==
              if CharAt(s, q) == Some('=') then
                if !ValueAt(s, v) || name.Text() in seen then None
                else BeforeTag(RawAttribute(name, DecodeEntities(Sub(s, v + 1, ValueEnd(s, v)))),
                               Attributes(s, ValueEnd(s, v) + 1, seen + {name.Text()}))
              else if name.Text() in seen then None
              else BeforeTag(RawAttribute(name, ""), Attributes(s, q, seen + {name.Text()}))
    ensures p < NameEnd(s, p)
  {
    hide NameAt, ValueAt, ValueEnd, NameEnd, DecodeEntities, White, Name.Text;
  }

  function After(done: seq<RawAttribute>, r: Option<Tag>): Option<Tag>
  {
    match r case None => None case Some(t) => Some(Tag(done + t.attrs, t.end))
  }

  lemma NoneYet(r: Option<Tag>, inherited: Option<string>)
    ensures After([], r) == r && Prefixes([]) == map[] && DefaultNs([], inherited) == inherited
  {
    if r.Some? { assert [] + r.value.attrs == r.value.attrs; }
  }

  lemma OneMoreAttr(done: seq<RawAttribute>, a: RawAttribute, r: Option<Tag>, inherited: Option<string>)
    ensures After(done, BeforeTag(a, r)) == After(done + [a], r)
    ensures Prefixes(done + [a]) == if a.name.prefix == Some("xmlns") then Prefixes(done)[a.name.local := UriOf(a.value)] else Prefixes(done)
    ensures DefaultNs(done + [a], inherited) == if IsDefault(a) then UriOf(a.value) else DefaultNs(done, inherited)
  {
    assert (done + [a])[..|done|] == done;
    if r.Some? { assert done + ([a] + r.value.attrs) == (done + [a]) + r.value.attrs; }
  }

  lemma {:induction false} WhiteStops(s: string, pos: nat)
    ensures White(s, White(s, pos)) == White(s, pos)
    decreases |s| - pos
  {
    if pos < |s| && IsWhite(s[pos]) { WhiteStops(s, pos + 1); }
  }

  lemma AttributesSkipWhite(s: string, pos: nat, seen: set<string>)
    ensures White(s, White(s, pos)) == White(s, pos) && Attributes(s, White(s, pos), seen) == Attributes(s, pos, seen)
  {
    hide White, NameAt, NameEnd, ValueAt, ValueEnd, DecodeEntities;
    WhiteStops(s, pos);
  }

  method UntilTagClose(reader: StringReader)
    modifies reader`position
    ensures reader.position == TagEnd(reader.data, old(reader.position))
  {
    hide TagEnd, RunEnd;
    var going := true;
    while going
      invariant TagEnd(reader.data, old(reader.position)) == if going then TagEnd(reader.data, reader.position) else reader.position
      decreases going, |reader.data| - reader.position
    {
      TagEndStep(reader.data, reader.position);
      var start := reader.While(NotTagEnd);
      var c := reader.Next();
      if c == Some('\'') {
        start := reader.While(NotApostrophe);
        c := reader.Next();
      } else if c == Some('"') {
        start := reader.While(NotQuote);
        c := reader.Next();
      } else {
        going := false;
      }
    }
  }

  lemma TagEndStep(s: string, pos: nat)
    ensures var n := RunEnd(s, pos, NotTagEnd);
            TagEnd(s, pos) == (if CharAt(s, n) == Some('\'') then TagEnd(s, RunEnd(s, n + 1, NotApostrophe) + 1)
                               else if CharAt(s, n) == Some('"') then TagEnd(s, RunEnd(s, n + 1, NotQuote) + 1)
                               else n + 1)
  {
    hide RunEnd;
  }

  /** Names never read `#document`. */
  lemma NameIsNotDocument(s: string, pos: nat)
    ensures NameAt(s, pos).Text() != "#document"
  {
    var n := RunEnd(s, pos, IsNameChar);
    if n > pos { RunIsRun(s, pos, IsNameChar, pos); }
    var name := NameAt(s, pos);
    var text := name.Text();
    if text != "" {
      if n > pos && pos < |s| {
        assert text[0] == s[pos] && IsNameChar(s[pos]);
      } else {
        assert name.prefix.Some? ==> text[0] == ':';
      }
      assert text[0] != '#';
    }
  }

  lemma {:induction false} RunIsRun(s: string, pos: nat, p: char -> bool, k: nat)
    requires pos <= k < RunEnd(s, pos, p)
    ensures k < |s| && p(s[k])
    decreases |s| - pos
  {
    if k > pos { RunIsRun(s, pos + 1, p, k); }
  }

  /** The markup at `pos` was read and its event handled. */
  ghost predicate Handled(g: Setting, s: string, pos: nat, st: State, ok: bool, next: nat, after: State)
    requires StateOk(g, st)
  {
    var l := Markup(s, pos);
    && (ok <==> l.Some? && Step(g, st, l.value.token).Some?)
    && (ok ==> next == l.value.next && Step(g, st, l.value.token) == Some(after))
  }

  /** An end tag, behind its `</`. */
  method ReadClose(c: StringReader, handler: ParseXmlHandlerImpl, stack: seq<Scope>) returns (ok: bool, scopes: seq<Scope>)
    requires handler.Valid() && StateOk(Setting(handler.schema, handler.validateRules), State(stack, handler.stack))
    requires c.position >= 2 && CharAt(c.data, c.position - 1) == Some('/')
    modifies c`position, handler`stack
    ensures handler.Valid()
    ensures Handled(Setting(handler.schema, handler.validateRules), c.data, old(c.position) - 2, State(stack, old(handler.stack)),
                    ok, c.position, State(scopes, handler.stack))
  {
    hide StackOk, NameAt, NameEnd, RunEnd, Closed, Name.Text;
    ok, scopes := false, stack;
    var start := c.While(IsWhite);
    NameIsNotDocument(c.data, c.position);
    var name := ReadQName(c);
    if name.Text() != stack[|stack| - 1].qName { return; }
    scopes := stack[..|stack| - 1];
    start := c.While(IsWhite);
    var gt := c.ReadChar('>');
    if !gt { return; }
    ok := handler.EndElement();
  }

  /** A start tag, behind its `<`. */
  method ReadOpen(c: StringReader, handler: ParseXmlHandlerImpl, stack: seq<Scope>) returns (ok: bool, scopes: seq<Scope>)
    requires handler.Valid() && StateOk(Setting(handler.schema, handler.validateRules), State(stack, handler.stack))
    requires c.position >= 1 && CharAt(c.data, c.position) !in {Some('/'), Some('?'), Some('!')}
    modifies c`position, handler`stack
    ensures handler.Valid()
    ensures Handled(Setting(handler.schema, handler.validateRules), c.data, old(c.position) - 1, State(stack, old(handler.stack)),
                    ok, c.position, State(scopes, handler.stack))
  {
    hide StackOk, NameAt, NameEnd, RunEnd, Closed, Opened, Attributes, Prefixes, DefaultNs, Resolved, NamespaceOf, Name.Text;
    ok, scopes := false, stack;
    ghost var g := Setting(handler.schema, handler.validateRules);
    var name := ReadQName(c);
    var attrs, namespaces, default := XmlAttributes(c, stack[|stack| - 1].default);
    if attrs.None? { return; }
    scopes := stack + [Scope(name.Text(), namespaces, default)];
    var resolved := Resolved(scopes, attrs.value);
    LastOk(handler.schema, handler.stack);
    StartKeeps(handler.schema, handler.validateRules, handler.stack, name.local, NamespaceOf(scopes, name.prefix), resolved);
    var started := handler.StartElement(name.local, NamespaceOf(scopes, name.prefix), resolved);
    if !started { return; }
    var slash := c.CharIf('/');
    var gt := c.ReadChar('>');
    if !gt { return; }
    ok := true;
    if slash {
      scopes := scopes[..|scopes| - 1];
      ok := handler.EndElement();
    }
  }

  /** A comment, a CDATA section or a declaration, behind its `<!`. */
  method ReadDeclaration(c: StringReader, handler: ParseXmlHandlerImpl, stack: seq<Scope>) returns (ok: bool)
    requires handler.Valid() && StateOk(Setting(handler.schema, handler.validateRules), State(stack, handler.stack))
    requires c.position >= 2 && CharAt(c.data, c.position - 1) == Some('!')
    modifies c`position, handler`stack
    ensures handler.Valid()
    ensures Handled(Setting(handler.schema, handler.validateRules), c.data, old(c.position) - 2, State(stack, old(handler.stack)),
                    ok, c.position, State(stack, handler.stack))
  {
    hide Handled, StackOk, TagEnd, Find;
    ghost var g, st := Setting(handler.schema, handler.validateRules), State(stack, handler.stack);
    DeclarationIs(g, c.data, c.position - 2, st);
    var dash := c.CharIf('-');
    if dash {
      var second := c.ReadChar('-');
      if !second { return false; }
      var start := c.UntilString("-->");
      ok := c.StringIf("-->");
      return;
    }
    var section := c.StringIf("[CDATA[");
    if section {
      var start := c.UntilString(CDATA_END);
      SectionStart(c.data, start);
      var text := Sub(c.data, start, c.position);
      ok := c.StringIf(CDATA_END);
      if ok { handler.CDataNode(text); }
      return;
    }
    UntilTagClose(c);
    ok := true;
  }

  lemma SectionStart(s: string, start: nat)
    requires start >= 7 && StartsAt(s, start - 7, "[CDATA[")
    ensures start <= Find(s, start, CDATA_END)
  {
  }

  /** The three kinds of declarations. */
  lemma DeclarationIs(g: Setting, s: string, pos: nat, st: State)
    requires StateOk(g, st) && CharAt(s, pos + 1) == Some('!')
    ensures CharAt(s, pos + 2) == Some('-') && CharAt(s, pos + 3) != Some('-') ==>
              forall n, a :: Handled(g, s, pos, st, false, n, a)
    ensures CharAt(s, pos + 2) == Some('-') && CharAt(s, pos + 3) == Some('-') ==>
              var e := Find(s, pos + 4, "-->");
              if StartsAt(s, e, "-->") then Handled(g, s, pos, st, true, e + 3, st)
              else forall n, a :: Handled(g, s, pos, st, false, n, a)
    ensures CharAt(s, pos + 2) != Some('-') && StartsAt(s, pos + 2, "[CDATA[") ==>
              var e := Find(s, pos + 9, CDATA_END);
              if StartsAt(s, e, CDATA_END)
              then pos + 9 <= e && Handled(g, s, pos, st, true, e + 3, st.(frames := Sectioned(g.schema, st.frames, Sub(s, pos + 9, e))))
              else forall n, a :: Handled(g, s, pos, st, false, n, a)
    ensures CharAt(s, pos + 2) != Some('-') && !StartsAt(s, pos + 2, "[CDATA[") ==>
              Handled(g, s, pos, st, true, TagEnd(s, pos + 2), st)
  {
    hide StackOk, TagEnd, Sectioned;
  }

  method ReadMarkup(c: StringReader, handler: ParseXmlHandlerImpl, stack: seq<Scope>) returns (ok: bool, scopes: seq<Scope>)
    requires handler.Valid() && StateOk(Setting(handler.schema, handler.validateRules), State(stack, handler.stack))
    requires c.position >= 1
    modifies c`position, handler`stack
    ensures handler.Valid()
    ensures Handled(Setting(handler.schema, handler.validateRules), c.data, old(c.position) - 1, State(stack, old(handler.stack)),
                    ok, c.position, State(scopes, handler.stack))
  {
    hide Handled, StackOk, TagEnd;
    ok, scopes := true, stack;
    var slash := c.CharIf('/');
    if slash {
      ok, scopes := ReadClose(c, handler, stack);
      return;
    }
    var question := c.CharIf('?');
    if question {
      UntilTagClose(c);
      SkipHandled(Setting(handler.schema, handler.validateRules), c.data, old(c.position) - 1, State(stack, handler.stack), c.position);
      return;
    }
    var exclamation := c.CharIf('!');
    if exclamation {
      ok := ReadDeclaration(c, handler, stack);
      return;
    }
    ok, scopes := ReadOpen(c, handler, stack);
  }

  lemma SkipHandled(g: Setting, s: string, pos: nat, st: State, next: nat)
    requires StateOk(g, st) && CharAt(s, pos + 1) == Some('?') && next == TagEnd(s, pos + 2)
    ensures Handled(g, s, pos, st, true, next, st)
  {
    hide TagEnd, StackOk;
  }

  /** Parses a document with a handler that is free. */
  method ParseXml(str: string, handler: ParseXmlHandlerImpl) returns (r: Option<Option<Obj>>)
    requires handler.Valid() && handler.stack == []
    modifies handler
    ensures r == if old(handler.busy) then None else Parsed(Setting(handler.schema, handler.validateRules), handler.root, str)
  {
    hide StackOk, Handled, Markup, RunEnd, Texted, Finished, Step;
    var c := new StringReader(str);
    var stack := [DOCUMENT];
    var started := handler.StartDocument();
    if !started { return None; }
    ghost var g := Setting(handler.schema, handler.validateRules);
    RootOk(g, handler.root);
    assert handler.stack == [RootFrame(handler.schema, handler.root)];
    while c.position < |str|
      invariant handler.Valid() && StateOk(g, State(stack, handler.stack))
      invariant Parse(g, str, c.position, State(stack, handler.stack)) == Parse(g, str, 0, State([DOCUMENT], [RootFrame(g.schema, handler.root)]))
      decreases |str| - c.position
    {
      ghost var st := State(stack, handler.stack);
      var charsStart := c.While(NotOpening);
      ghost var text := str[charsStart..c.position];
      TextKeeps(g, st, text);
      ParseStep(g, str, charsStart, st);
      if charsStart < c.position {
        handler.TextNode(str[charsStart..c.position]);
      }
      if c.position >= |str| { break; }
      var lt := c.Next();
      var ok;
      ghost var st1 := State(stack, handler.stack);
      assert st1 == WithText(g, st, text);
      ghost var at: nat := c.position - 1;
      ok, stack := ReadMarkup(c, handler, stack);
      HandledNext(g, str, at, st1, ok, c.position, State(stack, handler.stack));
      if !ok { return None; }
    }
    r := handler.EndDocument();
  }

  lemma RootOk(g: Setting, root: nat)
    requires root < |g.schema|
    ensures StateOk(g, State([DOCUMENT], [RootFrame(g.schema, root)]))
  {
  }

  lemma HandledNext(g: Setting, s: string, pos: nat, st: State, ok: bool, next: nat, after: State)
    requires StateOk(g, st) && Handled(g, s, pos, st, ok, next, after)
    ensures ok ==> next > pos && StateOk(g, after)
    ensures !ok ==> Markup(s, pos).None? || Step(g, st, Markup(s, pos).value.token).None?
    ensures ok ==> Markup(s, pos).Some? && Markup(s, pos).value.next == next && Step(g, st, Markup(s, pos).value.token) == Some(after)
  {
    hide Markup, Step, StackOk;
    if ok { StepKeeps(g, st, Markup(s, pos).value.token); }
  }

  /** One turn of the loop. */
  lemma ParseStep(g: Setting, s: string, pos: nat, st: State)
    requires StateOk(g, st) && pos < |s|
    ensures var n := RunEnd(s, pos, NotOpening);
            && StateOk(g, WithText(g, st, s[pos..n]))
            && Parse(g, s, pos, st) ==
               (if n >= |s| then Some(WithText(g, st, s[pos..n]))
                else if Markup(s, n).None? then None
                else
                  var l := Markup(s, n).value;
                  match Step(g, WithText(g, st, s[pos..n]), l.token)
                  case None => None
                  case Some(st2) => (StepKeeps(g, WithText(g, st, s[pos..n]), l.token); Parse(g, s, l.next, st2)))
  {
    hide Markup, Step, StackOk, RunEnd, WithText;
    TextKeeps(g, st, s[pos..RunEnd(s, pos, NotOpening)]);
  }
}
