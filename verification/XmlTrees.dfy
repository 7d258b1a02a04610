/** Documents taken in node by node: the parser as a walk over the tree. */
module XmlTrees {
  import opened Wrappers
  import opened Strings
  import T = XmlText
  import opened XmlRules
  import opened XmlHandling
  import P = XmlParsing
  import opened XmlGrammar
  import opened XmlRoundTrip

  // ------------------------------------------------------------------ the walk

  /** The same element, at the same place. */
  predicate Same(f: Frame, h: Frame)
  {
    && h.rules == f.rules && h.slot == f.slot && h.element.Some? == f.element.Some?
    && (f.element.Some? ==> |h.element.value.fields| == |f.element.value.fields|)
  }

  function WithCharacters(g: P.Setting, f: Frame, text: string): Frame
  {
    if RulesOf(g.schema, f).characters then f.(characters := f.characters + text) else f
  }

  function Take(g: P.Setting, scopes: seq<P.Scope>, f: Frame, nodes: seq<Node>): (r: Option<Frame>)
    requires FrameOk(g.schema, f) && scopes != []
    ensures r.Some? ==> FrameOk(g.schema, r.value) && Same(f, r.value)
    decreases nodes
  {
    if nodes == [] then Some(f)
    else
      match TakeNode(g, scopes, f, nodes[0])
      case None => None
      case Some(f1) => Take(g, scopes, f1, nodes[1..])
  }

  function TakeNode(g: P.Setting, scopes: seq<P.Scope>, f: Frame, n: Node): (r: Option<Frame>)
    requires FrameOk(g.schema, f) && scopes != []
    ensures r.Some? ==> FrameOk(g.schema, r.value) && Same(f, r.value)
    decreases n
  {
    match n
    case Text(raw) => Some(WithCharacters(g, f, T.DecodeEntities(Trim(raw))))
    case CData(text) => Some(WithCharacters(g, f, text))
    case Comment(_) => Some(f)
    case Aside(_, _) => Some(f)
    case Element(name, attrs, space, closed, nodes, end) =>
      if !Fresh(attrs, INHERITED) then None
      else
        match Begun(g, P.Entered(scopes, name, Reads(attrs)), f, name, attrs)
        case None => None
        case Some(h) =>
          match Take(g, P.Entered(scopes, name, Reads(attrs)), h, nodes)
          case None => None
          case Some(h1) => if closed || end.name.Text() == name.Text() then Left(g, f, h1) else None
  }

  /** The frame belongs into a slot of the other, or nowhere. */
  predicate Within(f: Frame, h: Frame)
  {
    h.slot.Some? ==> h.element.Some? && f.element.Some? && h.slot.value < |f.element.value.fields|
  }

  /** The frame of an element that begins in another. */
  function Begun(g: P.Setting, inside: seq<P.Scope>, f: Frame, name: P.Name, attrs: seq<Attr>): (r: Option<Frame>)
    requires FrameOk(g.schema, f) && inside != []
    ensures r.Some? ==> FrameOk(g.schema, r.value) && Within(f, r.value)
  {
    var ns, read := P.NamespaceOf(inside, name.prefix), P.Resolved(inside, Reads(attrs));
    match Opened(g.schema, g.validate, [f], name.local, ns, read)
    case None => None
    case Some(fs) => BegunFits(g, f, name.local, ns, read); Some(fs[1])
  }

  lemma BegunFits(g: P.Setting, f: Frame, local: string, ns: Option<string>, attrs: seq<Attribute>)
    requires FrameOk(g.schema, f)
    ensures var r := Opened(g.schema, g.validate, [f], local, ns, attrs);
            r.Some? ==> |r.value| == 2 && r.value == [f, r.value[1]] && FrameOk(g.schema, r.value[1]) && Within(f, r.value[1])
  {
    hide Opened, FrameOk;
    LonelyOk(g.schema, f);
    StartKeeps(g.schema, g.validate, [f], local, ns, attrs);
    var r := Opened(g.schema, g.validate, [f], local, ns, attrs);
    if r.Some? {
      assert StackOk(g.schema, r.value) && |r.value| == 2;
      assert r.value[1] in r.value;
      Bottom(g, f, local, ns, attrs);
    }
  }

  lemma LonelyOk(schema: Schema, f: Frame)
    requires FrameOk(schema, f)
    ensures StackOk(schema, [f])
  {
  }

  lemma Bottom(g: P.Setting, f: Frame, local: string, ns: Option<string>, attrs: seq<Attribute>)
    requires FrameOk(g.schema, f)
    ensures var r := Opened(g.schema, g.validate, [f], local, ns, attrs);
            r.Some? ==> r.value != [] && r.value[0] == f
  {
    hide AssignAll, Defaults, Missing, RuleKey;
  }

  /** And that other one when it has ended. */
  function Left(g: P.Setting, f: Frame, h: Frame): (r: Option<Frame>)
    requires FrameOk(g.schema, f) && FrameOk(g.schema, h) && Within(f, h)
    ensures r.Some? ==> FrameOk(g.schema, r.value) && Same(f, r.value)
  {
    if !Validates(g.schema, g.validate, h) then None
    else if h.slot.None? then Some(f)
    else Some(Attach(f, h.slot.value, Ended(g.schema, h).value))
  }

  // ------------------------------------------------------------------ the parser walks like that

  lemma TopOk(g: P.Setting, st: P.State)
    requires P.StateOk(g, st)
    ensures st.frames != [] && st.scopes != [] && FrameOk(g.schema, Top(st))
  {
    LastOk(g.schema, st.frames);
  }

  /** Another frame of the same shape may stand on top. */
  lemma TopChanges(g: P.Setting, st: P.State, f: Frame)
    requires P.StateOk(g, st) && FrameOk(g.schema, f) && Same(Top(st), f)
    ensures P.StateOk(g, WithTop(st, f)) && Top(WithTop(st, f)) == f
  {
    hide FrameOk;
    var a, b := st.frames, WithTop(st, f).frames;
    assert forall i :: 0 <= i < |a| - 1 ==> b[i] == a[i];
    forall h | h in b ensures FrameOk(g.schema, h) { if h != f { assert h in a; } }
    if |a| == 1 { assert b == [f]; }
  }

  /** One piece of markup. */
  lemma MarkupTurn(g: P.Setting, s: string, pos: nat, st: P.State, token: P.Token, next: nat)
    requires P.StateOk(g, st) && pos < |s| && s[pos] == '<' && P.Markup(s, pos) == Some(P.Lexed(token, next))
    ensures match P.Step(g, st, token)
            case None => P.Parse(g, s, pos, st) == None
            case Some(st1) => P.StateOk(g, st1) && P.Parse(g, s, pos, st) == P.Parse(g, s, next, st1)
  {
    hide P.StateOk, P.Step, P.Markup, P.Parse;
    RunEndIs(s, pos, P.NotOpening, pos);
    assert s[pos..pos] == "";
    P.StepKeeps(g, st, token);
    P.ParseStep(g, s, pos, st);
  }

  lemma MarkupStops(g: P.Setting, s: string, pos: nat, st: P.State)
    requires P.StateOk(g, st) && pos < |s| && s[pos] == '<' && P.Markup(s, pos) == None
    ensures P.Parse(g, s, pos, st) == None
  {
    hide P.StateOk, P.Step, P.Markup, P.Parse;
    RunEndIs(s, pos, P.NotOpening, pos);
    assert s[pos..pos] == "";
    P.ParseStep(g, s, pos, st);
  }

  /** Text up to markup, or to the end. */
  lemma TextTurn(g: P.Setting, s: string, pos: nat, st: P.State, raw: string, rest: string)
    requires P.StateOk(g, st) && '<' !in raw && (rest == "" || rest[0] == '<')
    requires pos <= |s| && s[pos..] == raw + rest
    ensures var st1 := P.WithText(g, st, raw);
            P.StateOk(g, st1) && P.Parse(g, s, pos, st) == P.Parse(g, s, pos + |raw|, st1)
  {
    hide P.StateOk, P.Step, P.Markup, P.Parse, P.WithText;
    P.TextKeeps(g, st, raw);
    var st1, n := P.WithText(g, st, raw), pos + |raw|;
    RunOver(s, pos, raw, rest, P.NotOpening) by { assert forall c :: c in raw ==> P.NotOpening(c); }
    Here(s, pos, raw, rest);
    if pos < |s| { P.ParseStep(g, s, pos, st); } else { NoTextAtEnd(g, s, pos, st); }
    if n < |s| {
      assert s[n] == s[n..][0];
      RunEndIs(s, n, P.NotOpening, n);
      assert s[n..n] == "";
      NothingText(g, st1);
      P.ParseStep(g, s, n, st1);
    } else {
      NoTextAtEnd(g, s, n, st1);
    }
  }

  lemma NothingText(g: P.Setting, st: P.State)
    requires P.StateOk(g, st)
    ensures P.WithText(g, st, "") == st
  {
  }

  lemma NoTextAtEnd(g: P.Setting, s: string, pos: nat, st: P.State)
    requires P.StateOk(g, st) && pos >= |s|
    ensures P.Parse(g, s, pos, st) == Some(st) && P.WithText(g, st, "") == st
  {
  }

  lemma TextIs(g: P.Setting, st: P.State, raw: string)
    requires P.StateOk(g, st)
    ensures P.WithText(g, st, raw) == WithTop(st, WithCharacters(g, Top(st), T.DecodeEntities(Trim(raw))))
  {
    hide Trim;
    var f := Top(st);
    TopTwice(st, f, f);
    if raw == "" {
      TrimWhite("");
      assert T.DecodeEntities("") == "";
      assert f.characters + "" == f.characters;
    }
  }

  lemma SectionIs(g: P.Setting, st: P.State, text: string)
    requires P.StateOk(g, st)
    ensures P.Step(g, st, P.CDataSection(text)) == Some(WithTop(st, WithCharacters(g, Top(st), text)))
  {
    TopTwice(st, Top(st), Top(st));
  }

  /** What is parsed from `pos` to `next` leaves this frame on top, or ends the parse. */
  ghost predicate Leads(g: P.Setting, s: string, pos: nat, st: P.State, f: Option<Frame>, next: nat)
    requires P.StateOk(g, st)
  {
    match f
    case None => P.Parse(g, s, pos, st) == None
    case Some(f) => P.StateOk(g, WithTop(st, f)) && P.Parse(g, s, pos, st) == P.Parse(g, s, next, WithTop(st, f))
  }

  lemma Begins(nodes: seq<Node>, rest: string)
    requires NodesOk(nodes) && (rest == "" || rest[0] == '<') && (nodes == [] || !nodes[0].Text?)
    ensures var t := NodesText(nodes) + rest; t == "" || t[0] == '<'
  {
    if nodes != [] { NodeBegins(nodes[0], NodesText(nodes[1..]) + rest); }
  }

  lemma NodeBegins(n: Node, rest: string)
    requires !n.Text?
    ensures var t := NodeText(n) + rest; t != "" && t[0] == '<' && |NodeText(n)| > 0
  {
    hide NodesText, AttrsText, ChunksText;
  }

  lemma {:induction false} NodesParse(g: P.Setting, s: string, pos: nat, st: P.State, nodes: seq<Node>, rest: string)
    requires P.StateOk(g, st) && NodesOk(nodes) && pos <= |s| && s[pos..] == NodesText(nodes) + rest
    requires rest == "" || rest[0] == '<'
    ensures FrameOk(g.schema, Top(st)) && st.scopes != [] && pos + |NodesText(nodes)| <= |s| && s[pos + |NodesText(nodes)|..] == rest
    ensures Leads(g, s, pos, st, Take(g, st.scopes, Top(st), nodes), pos + |NodesText(nodes)|)
    decreases nodes, 0
  {
    hide P.StateOk, P.Parse, FrameOk, NodeOk, NodeText, TakeNode, Take, Leads, WithTop, NodesText, NodesOk, Top;
    NodesFirst(nodes, rest);
    TopOk(g, st);
    TakeFirst(g, st.scopes, Top(st), nodes);
    Here(s, pos, NodesText(nodes), rest);
    if nodes == [] {
      StaysLeads(g, s, pos, st);
    } else {
      var more := NodesText(nodes[1..]) + rest;
      if nodes[0].Text? { Begins(nodes[1..], rest); }
      NodeParse(g, s, pos, st, nodes[0], more);
      var f := TakeNode(g, st.scopes, Top(st), nodes[0]);
      if f.Some? {
        var at := pos + |NodeText(nodes[0])|;
        LeadsTo(g, s, pos, st, f, at);
        var st1 := WithTop(st, f.value);
        NodesParse(g, s, at, st1, nodes[1..], rest);
        LeadsOn(g, s, pos, at, st, f.value, Take(g, st.scopes, f.value, nodes[1..]), at + |NodesText(nodes[1..])|);
      } else {
        LeadsNowhere(g, s, pos, st, pos + |NodeText(nodes[0])|, pos + |NodesText(nodes)|);
      }
    }
  }

  lemma TakeFirst(g: P.Setting, scopes: seq<P.Scope>, f: Frame, nodes: seq<Node>)
    requires FrameOk(g.schema, f) && scopes != [] && NodesOk(nodes)
    ensures Take(g, scopes, f, nodes)
         == if nodes == [] then Some(f)
            else match TakeNode(g, scopes, f, nodes[0]) case None => None case Some(f1) => Take(g, scopes, f1, nodes[1..])
    ensures nodes != [] ==> NodeOk(nodes[0]) && NodesOk(nodes[1..]) && (nodes[0].Text? && |nodes| > 1 ==> !nodes[1].Text?)
  {
    hide FrameOk, TakeNode, NodeOk;
  }

  lemma NodesFirst(nodes: seq<Node>, rest: string)
    ensures nodes == [] ==> NodesText(nodes) == "" && "" + rest == rest
    ensures nodes != [] ==> NodesText(nodes) + rest == NodeText(nodes[0]) + (NodesText(nodes[1..]) + rest)
                            && |NodesText(nodes)| == |NodeText(nodes[0])| + |NodesText(nodes[1..])|
  {
    hide NodeText;
  }

  lemma LeadsTo(g: P.Setting, s: string, pos: nat, st: P.State, f: Option<Frame>, next: nat)
    requires P.StateOk(g, st) && st.frames != [] && Leads(g, s, pos, st, f, next) && f.Some?
    ensures var st1 := WithTop(st, f.value); P.StateOk(g, st1) && st1.scopes == st.scopes && st1.frames != [] && Top(st1) == f.value
  {
    hide P.StateOk, P.Parse;
    TopTwice(st, f.value, f.value);
  }

  lemma LeadsNowhere(g: P.Setting, s: string, pos: nat, st: P.State, n: nat, m: nat)
    requires P.StateOk(g, st) && st.frames != [] && Leads(g, s, pos, st, None, n)
    ensures Leads(g, s, pos, st, None, m)
  {
    hide P.StateOk, P.Parse;
  }

  lemma StaysLeads(g: P.Setting, s: string, pos: nat, st: P.State)
    requires P.StateOk(g, st) && st.frames != []
    ensures Leads(g, s, pos, st, Some(Top(st)), pos)
  {
    hide P.StateOk, P.Parse;
    TopTwice(st, Top(st), Top(st));
  }

  lemma LeadsOn(g: P.Setting, s: string, pos: nat, at: nat, st: P.State, f: Frame, h: Option<Frame>, next: nat)
    requires P.StateOk(g, st) && st.frames != [] && Leads(g, s, pos, st, Some(f), at) && Leads(g, s, at, WithTop(st, f), h, next)
    ensures Leads(g, s, pos, st, h, next)
  {
    hide P.StateOk, P.Parse, WithTop;
    if h.Some? { TopTwice(st, f, h.value); }
  }

  lemma {:induction false} NodeParse(g: P.Setting, s: string, pos: nat, st: P.State, n: Node, rest: string)
    requires P.StateOk(g, st) && NodeOk(n) && pos <= |s| && s[pos..] == NodeText(n) + rest
    requires n.Text? ==> rest == "" || rest[0] == '<'
    ensures FrameOk(g.schema, Top(st)) && st.scopes != [] && pos + |NodeText(n)| <= |s| && s[pos + |NodeText(n)|..] == rest
    ensures Leads(g, s, pos, st, TakeNode(g, st.scopes, Top(st), n), pos + |NodeText(n)|)
    decreases n, 1
  {
    hide P.StateOk, P.Parse, FrameOk, P.Markup, ChunksText, ChunkOk, P.Step, OpenText, NodesText, EndText, T.Holds, HoldsArrow;
    TopOk(g, st);
    Here(s, pos, NodeText(n), rest);
    TopTwice(st, Top(st), Top(st));
    if !n.Text? {
      NodeBegins(n, rest);
      assert s[pos] == s[pos..][0];
    }
    match n
    case Text(raw) =>
      TextTurn(g, s, pos, st, raw, rest);
      TextIs(g, st, raw);
    case CData(text) =>
      CDataRead(s, pos, text, rest);
      MarkupTurn(g, s, pos, st, P.CDataSection(text), pos + |text| + 12);
      SectionIs(g, st, text);
    case Comment(text) =>
      CommentRead(s, pos, text, rest);
      MarkupTurn(g, s, pos, st, P.Skipped, pos + |text| + 7);
      SkippedIs(g, st);
    case Aside(mark, chunks) =>
      AsideRead(s, pos, mark, chunks, rest);
      MarkupTurn(g, s, pos, st, P.Skipped, pos + |NodeText(n)|);
      SkippedIs(g, st);
    case Element(_, _, _, _, _, _) =>
      ElementParse(g, s, pos, st, n, rest);
  }

  lemma SkippedIs(g: P.Setting, st: P.State)
    requires P.StateOk(g, st)
    ensures P.Step(g, st, P.Skipped) == Some(st)
  {
  }

  lemma ElementTaken(g: P.Setting, st: P.State, n: Node)
    requires n.Element? && st.frames != [] && st.scopes != [] && FrameOk(g.schema, Top(st)) && (n.closed ==> n.nodes == [])
    ensures var inside := P.Entered(st.scopes, n.name, Reads(n.attrs));
            TakeNode(g, st.scopes, Top(st), n)
            == if !Fresh(n.attrs, INHERITED) then None else
               match Begun(g, inside, Top(st), n.name, n.attrs)
               case None => None
               case Some(h) =>
                 if n.closed then Left(g, Top(st), h)
                 else
                   match Take(g, inside, h, n.nodes)
                   case None => None
                   case Some(h1) => if n.end.name.Text() == n.name.Text() then Left(g, Top(st), h1) else None
  {
    hide FrameOk, Fresh, P.Entered, Reads, P.Name.Text, Begun, Left, Top;
  }

  lemma ElementParts(n: Node, rest: string)
    requires n.Element?
    ensures var open := OpenText(n.name, n.attrs, n.space, n.closed);
            var inner := if n.closed then rest else NodesText(n.nodes) + (EndText(n.end) + rest);
            && NodeText(n) + rest == open + inner
            && |NodeText(n)| == |open| + (if n.closed then 0 else |NodesText(n.nodes)| + |EndText(n.end)|)
    ensures NodeOk(n) ==> NameOk(n.name) && (forall a :: a in n.attrs ==> AttrOk(a)) && AllWhite(n.space) && (n.closed ==> n.nodes == [])
  {
    hide OpenText, EndText, NameOk, AttrOk;
    var open := OpenText(n.name, n.attrs, n.space, n.closed);
    if n.closed {
      assert open + "" == open;
    } else {
      Nested3(open, NodesText(n.nodes), EndText(n.end), rest);
    }
  }

  /** An element: its start tag, what it holds, and its end tag. */
  lemma {:induction false} ElementParse(g: P.Setting, s: string, pos: nat, st: P.State, n: Node, rest: string)
    requires n.Element? && P.StateOk(g, st) && NodeOk(n) && pos < |s| && s[pos] == '<' && s[pos..] == NodeText(n) + rest
    ensures FrameOk(g.schema, Top(st)) && st.scopes != []
    ensures Leads(g, s, pos, st, TakeNode(g, st.scopes, Top(st), n), pos + |NodeText(n)|)
    decreases n, 0
  {
    hide P.StateOk, P.Parse, FrameOk, P.Markup, P.Step, OpenText, NodesText, EndText, NameOk, AttrOk, Fresh, P.Entered, Reads, P.Name.Text,
         NodesOk, NodeOk, NodeText, Begun, Left, WithTop, Top, TakeNode, Take, Pushed;
    TopOk(g, st);
    var open := OpenText(n.name, n.attrs, n.space, n.closed);
    var inner := if n.closed then rest else NodesText(n.nodes) + (EndText(n.end) + rest);
    ElementParts(n, rest);
    ElementTaken(g, st, n);
    OpenRead(s, pos, n.name, n.attrs, n.space, n.closed, inner);
    if Fresh(n.attrs, INHERITED) {
      var token := P.OpenTag(n.name, Reads(n.attrs), n.closed);
      MarkupTurn(g, s, pos, st, token, pos + |open|);
      Here(s, pos, open, inner);
      OpenStep(g, st, n.name, n.attrs);
      var inside := P.Entered(st.scopes, n.name, Reads(n.attrs));
      StackIs(g, st);
      ScopesInside(st.scopes, n.name, Reads(n.attrs));
      var h := Begun(g, inside, Top(st), n.name, n.attrs);
      if h.Some? {
        if n.closed { LeaveIs(g, st, inside, h.value); } else { InnerParse(g, s, pos + |open|, st, n, h.value, rest); }
      }
    } else {
      MarkupStops(g, s, pos, st);
    }
  }

  /** An element more is open. */
  function Pushed(st: P.State, inside: seq<P.Scope>, h: Frame): P.State
  {
    P.State(inside, st.frames + [h])
  }

  lemma PushedOk(g: P.Setting, st: P.State, inside: seq<P.Scope>, h: Frame)
    requires P.StateOk(g, st) && FrameOk(g.schema, h) && |inside| == |st.scopes| + 1 && inside[..|st.scopes|] == st.scopes
    requires st.frames != [] && Within(Top(st), h)
    ensures P.StateOk(g, Pushed(st, inside, h)) && Top(Pushed(st, inside, h)) == h
  {
    hide FrameOk;
    var b := st.frames + [h];
    assert inside[0] == inside[..|st.scopes|][0];
    forall i | 0 < i < |b| && b[i].slot.Some?
      ensures b[i].element.Some? && b[i - 1].element.Some? && b[i].slot.value < |b[i - 1].element.value.fields|
    {
      if i < |st.frames| { assert st.frames[i] == b[i] && st.frames[i - 1] == b[i - 1]; }
    }
  }

  lemma PushedTwice(st: P.State, inside: seq<P.Scope>, h: Frame, h1: Frame)
    ensures WithTop(Pushed(st, inside, h), h1) == Pushed(st, inside, h1)
  {
    assert (st.frames + [h])[..|st.frames|] == st.frames;
  }

  /** What begins depends on the innermost element only. */
  lemma OpenedTop(g: P.Setting, stack: seq<Frame>, local: string, ns: Option<string>, attrs: seq<Attribute>)
    requires stack != [] && FrameOk(g.schema, stack[|stack| - 1])
    ensures var r := Opened(g.schema, g.validate, [stack[|stack| - 1]], local, ns, attrs);
            && (r.Some? ==> |r.value| == 2)
            && Opened(g.schema, g.validate, stack, local, ns, attrs)
               == match r case None => None case Some(fs) => Some(stack + [fs[1]])
  {
    hide AssignAll, Defaults, Missing, RuleKey, FindElement;
  }

  lemma OpenStep(g: P.Setting, st: P.State, name: P.Name, attrs: seq<Attr>)
    requires P.StateOk(g, st)
    ensures FrameOk(g.schema, Top(st))
    ensures var inside := P.Entered(st.scopes, name, Reads(attrs));
            match Begun(g, inside, Top(st), name, attrs)
            case None => P.Step(g, st, P.OpenTag(name, Reads(attrs), false)) == None && P.Step(g, st, P.OpenTag(name, Reads(attrs), true)) == None
            case Some(h) =>
              && P.StateOk(g, Pushed(st, inside, h)) && Top(Pushed(st, inside, h)) == h && |inside| >= 2
              && P.Step(g, st, P.OpenTag(name, Reads(attrs), false)) == Some(Pushed(st, inside, h))
              && P.Step(g, st, P.OpenTag(name, Reads(attrs), true)) == P.Leave(g, Pushed(st, inside, h))
  {
    hide P.Prefixes, P.DefaultNs, Reads, P.Resolved, P.NamespaceOf, StackOk, P.Leave, P.Name.Text, Opened, FrameOk, Within;
    TopOk(g, st);
    var inside := P.Entered(st.scopes, name, Reads(attrs));
    var ns, read := P.NamespaceOf(inside, name.prefix), P.Resolved(inside, Reads(attrs));
    OpenedTop(g, st.frames, name.local, ns, read);
    var h := Begun(g, inside, Top(st), name, attrs);
    if h.Some? { PushedOk(g, st, inside, h.value); }
  }

  lemma LeaveIs(g: P.Setting, st: P.State, inside: seq<P.Scope>, h: Frame)
    requires P.StateOk(g, st) && FrameOk(g.schema, h) && |inside| == |st.scopes| + 1 && inside[..|st.scopes|] == st.scopes
    requires st.frames != [] && Within(Top(st), h) && P.StateOk(g, Pushed(st, inside, h))
    ensures FrameOk(g.schema, Top(st))
    ensures match Left(g, Top(st), h)
            case None => P.Leave(g, Pushed(st, inside, h)) == None
            case Some(f) => P.Leave(g, Pushed(st, inside, h)) == Some(WithTop(st, f)) && P.StateOk(g, WithTop(st, f))
  {
    hide Validates, Ended, P.StateOk;
    TopOk(g, st);
    var stack := st.frames + [h];
    assert stack[..|stack| - 1] == st.frames && stack[|stack| - 1] == h;
    StackIs(g, Pushed(st, inside, h));
    TopTwice(st, Top(st), Top(st));
    var f := Left(g, Top(st), h);
    if f.Some? { TopChanges(g, st, f.value); }
  }

  lemma StackIs(g: P.Setting, st: P.State)
    requires P.StateOk(g, st)
    ensures StackOk(g.schema, st.frames) && |st.scopes| == |st.frames| && st.scopes != []
  {
  }

  lemma ScopesInside(scopes: seq<P.Scope>, name: P.Name, attrs: seq<P.RawAttribute>)
    requires scopes != []
    ensures var inside := P.Entered(scopes, name, attrs);
            |inside| == |scopes| + 1 && inside[..|scopes|] == scopes && inside[|scopes|].qName == name.Text()
  {
    hide P.Prefixes, P.DefaultNs, P.Name.Text;
  }

  lemma EndBegins(end: EndTag, rest: string)
    ensures var t := EndText(end) + rest; t != "" && t[0] == '<'
  {
    hide P.Name.Text;
  }

  lemma EndStep(g: P.Setting, st: P.State, name: P.Name)
    requires P.StateOk(g, st) && |st.scopes| >= 2
    ensures P.Step(g, st, P.CloseTag(name)) == if name.Text() == st.scopes[|st.scopes| - 1].qName then P.Leave(g, st) else None
  {
    hide P.StateOk, P.Leave;
  }

  /** The inside of an element and its end tag. */
  lemma {:induction false} InnerParse(g: P.Setting, s: string, pos: nat, st: P.State, n: Node, h: Frame, rest: string)
    requires n.Element? && !n.closed && NodeOk(n) && P.StateOk(g, st) && FrameOk(g.schema, h)
    requires st.scopes != [] && st.frames != [] && FrameOk(g.schema, Top(st)) && Within(Top(st), h)
    requires pos <= |s| && s[pos..] == NodesText(n.nodes) + (EndText(n.end) + rest)
    ensures var inside := P.Entered(st.scopes, n.name, Reads(n.attrs));
            var next := pos + |NodesText(n.nodes)| + |EndText(n.end)|;
            && P.StateOk(g, Pushed(st, inside, h))
            && match Take(g, inside, h, n.nodes)
               case None => P.Parse(g, s, pos, Pushed(st, inside, h)) == None
               case Some(h1) =>
                 match if n.end.name.Text() == n.name.Text() then Left(g, Top(st), h1) else None
                 case None => P.Parse(g, s, pos, Pushed(st, inside, h)) == None
                 case Some(f) =>
                   P.StateOk(g, WithTop(st, f)) && P.Parse(g, s, pos, Pushed(st, inside, h)) == P.Parse(g, s, next, WithTop(st, f))
    decreases n.nodes, 1
  {
    hide P.StateOk, P.Parse, FrameOk, P.Markup, P.Step, P.Leave, NodesText, EndText, NameOk, AttrOk, P.Entered, Reads, P.Name.Text,
         NodesOk, Left, WithTop, P.Leave;
    var inside := P.Entered(st.scopes, n.name, Reads(n.attrs));
    StackIs(g, st);
    ScopesInside(st.scopes, n.name, Reads(n.attrs));
    PushedOk(g, st, inside, h);
    var st1 := Pushed(st, inside, h);
    EndBegins(n.end, rest);
    NodesParse(g, s, pos, st1, n.nodes, EndText(n.end) + rest);
    var h1 := Take(g, inside, h, n.nodes);
    if h1.Some? {
      var e := pos + |NodesText(n.nodes)|;
      PushedTwice(st, inside, h, h1.value);
      var st2 := Pushed(st, inside, h1.value);
      assert s[e] == s[e..][0];
      EndRead(s, e, n.end, rest);
      MarkupTurn(g, s, e, st2, P.CloseTag(n.end.name), e + |EndText(n.end)|);
      EndStep(g, st2, n.end.name);
      LeaveIs(g, st, inside, h1.value);
    }
  }
}
