/** What becomes of namespaces that are not read as they are written, and with it the exact condition of the round trip. */
module XmlLost {
  import opened Wrappers
  import opened Strings
  import opened XmlText
  import opened XmlRules
  import opened XmlHandling
  import opened XmlWriting
  import opened XmlNames
  import opened XmlScanning
  import opened XmlTags
  import opened XmlScopes
  import opened XmlRoundTrip
  import P = XmlParsing

  // ------------------------------------------------------------------ elements are balanced

  /** The same element is open, with the same attributes; text and children may have come. */
  predicate SameFrame(f: Frame, h: Frame)
  {
    && h.rules == f.rules && h.slot == f.slot && h.element.Some? == f.element.Some?
    && (f.element.Some? ==>
          && h.element.value.attributes == f.element.value.attributes
          && |h.element.value.fields| == |f.element.value.fields|)
  }

  predicate Kept(a: P.State, b: P.State)
  {
    && a.frames != [] && b.scopes == a.scopes && |b.frames| == |a.frames|
    && b.frames[..|b.frames| - 1] == a.frames[..|a.frames| - 1] && SameFrame(Top(a), Top(b))
  }

  /** Whatever state it begins in, the run keeps it. */
  ghost predicate Keeps(g: P.Setting, items: seq<Item>)
  {
    forall st :: P.StateOk(g, st) && Run(g, st, items).Some? ==> Kept(st, Run(g, st, items).value)
  }

  lemma KeptJoins(a: P.State, b: P.State, c: P.State)
    requires Kept(a, b) && Kept(b, c)
    ensures Kept(a, c)
  {
  }

  lemma KeepsBoth(g: P.Setting, a: seq<Item>, b: seq<Item>)
    requires Keeps(g, a) && Keeps(g, b)
    ensures Keeps(g, a + b)
  {
    hide Run, P.StateOk, Kept;
    forall st | P.StateOk(g, st) && Run(g, st, a + b).Some? ensures Kept(st, Run(g, st, a + b).value) {
      RunAppend(g, st, a, b);
      var st1 := Run(g, st, a).value;
      KeptJoins(st, st1, Run(g, st1, b).value);
    }
  }

  lemma NothingKeeps(g: P.Setting)
    ensures Keeps(g, [])
  {
    hide P.StateOk;
    forall st | P.StateOk(g, st) && Run(g, st, []).Some? ensures Kept(st, Run(g, st, []).value) { FramesThere(g, st); }
  }

  lemma FramesThere(g: P.Setting, st: P.State)
    requires P.StateOk(g, st)
    ensures st.frames != []
  {
  }

  lemma LedKeeps(g: P.Setting, lead: string, items: seq<Item>)
    requires Keeps(g, items)
    ensures Keeps(g, Led(lead, items))
  {
    hide Run, P.StateOk, Kept, Led;
    forall st | P.StateOk(g, st) && Run(g, st, Led(lead, items)).Some? ensures Kept(st, Run(g, st, Led(lead, items)).value) {
      RunLed(g, st, lead, items);
    }
  }

  lemma {:induction false} SectionsKeep(g: P.Setting, sections: seq<string>)
    ensures Keeps(g, SectionItems(sections))
  {
    hide Run, P.StateOk, Kept;
    NothingKeeps(g);
    if sections != [] {
      SectionsKeep(g, sections[1..]);
      SectionKeeps(g, sections[0]);
      KeepsBoth(g, [Item("", Section(sections[0]))], SectionItems(sections[1..]));
    }
  }

  lemma SectionKeeps(g: P.Setting, text: string)
    ensures Keeps(g, [Item("", Section(text))])
  {
    hide Run, P.StateOk, P.Step, Kept;
    var items := [Item("", Section(text))];
    forall st | P.StateOk(g, st) && Run(g, st, items).Some? ensures Kept(st, Run(g, st, items).value) {
      RunOne(g, st, items[0]);
      SectionStep(g, st, text);
    }
  }

  lemma SectionStep(g: P.Setting, st: P.State, text: string)
    requires P.StateOk(g, st)
    ensures var r := P.Step(g, st, TokenOf(Section(text))); r.Some? && Kept(st, r.value)
  {
    hide StackOk, RulesOf;
    var f := Top(st);
    assert WithLast(st.frames, f.(characters := f.characters + text))[..|st.frames| - 1] == st.frames[..|st.frames| - 1];
  }

  lemma TextKept(g: P.Setting, text: string, lead: string)
    ensures Keeps(g, TextItems(text, lead))
  {
    hide Keeps, Split, Led;
    NothingKeeps(g);
    if text != "" {
      SectionsKeep(g, Sections(Split(text), ""));
      LedKeeps(g, lead, SectionItems(Sections(Split(text), "")));
    }
  }

  /** The state in which an element is about to end. */
  function Inner(g: P.Setting, st: P.State, prefix: Option<string>, local: string, attrs: seq<RawAttr>, text: string,
                 kids: seq<Item>): (r: Option<P.State>)
    requires P.StateOk(g, st)
    ensures r.Some? ==> P.StateOk(g, r.value)
  {
    P.StepKeeps(g, st, TokenOf(Open(prefix, local, attrs, false)));
    match P.Step(g, st, TokenOf(Open(prefix, local, attrs, false)))
    case None => None
    case Some(st1) =>
      match Run(g, st1, TextItems(text, ""))
      case None => None
      case Some(st2) => Run(g, st2, kids)
  }

  /** Opening: a new frame on top, in a new scope. */
  lemma OpenIs(g: P.Setting, st: P.State, prefix: Option<string>, local: string, attrs: seq<RawAttr>)
    requires P.StateOk(g, st)
    ensures var scopes := P.Entered(st.scopes, P.Name(prefix, local), Decoded(attrs));
            && FrameOk(g.schema, Top(st))
            && var o := Opened(g.schema, g.validate, st.frames, local, P.NamespaceOf(scopes, prefix), P.Resolved(scopes, Decoded(attrs)));
            && P.Step(g, st, TokenOf(Open(prefix, local, attrs, false)))
               == (match o case None => None case Some(frames) => Some(P.State(scopes, frames)))
            && (o.Some? ==> P.StateOk(g, P.State(scopes, o.value)) && |scopes| >= 2 && scopes[..|scopes| - 1] == st.scopes
                            && scopes[|scopes| - 1].qName == P.Name(prefix, local).Text()
                            && o.value != [] && o.value[..|o.value| - 1] == st.frames)
            && P.Step(g, st, TokenOf(Open(prefix, local, attrs, true)))
               == (match o case None => None case Some(frames) => P.Leave(g, P.State(scopes, frames)))
  {
    hide P.Prefixes, P.DefaultNs, Decoded, P.Resolved, P.NamespaceOf, StackOk, P.Leave, P.Name.Text, AssignAll, Defaults, Missing;
    LastOk(g.schema, st.frames);
    var scopes := P.Entered(st.scopes, P.Name(prefix, local), Decoded(attrs));
    StartKeeps(g.schema, g.validate, st.frames, local, P.NamespaceOf(scopes, prefix), P.Resolved(scopes, Decoded(attrs)));
  }

  lemma LeaveWhole(g: P.Setting, st: P.State, prefix: Option<string>, local: string)
    requires P.StateOk(g, st) && |st.scopes| >= 2 && st.scopes[|st.scopes| - 1].qName == P.Name(prefix, local).Text()
    ensures Run(g, st, [Item("", Close(prefix, local))]) == P.Leave(g, st)
  {
    hide P.StateOk, P.Leave, Run, P.Step;
    RunOne(g, st, Item("", Close(prefix, local)));
    CloseStep(g, st, prefix, local);
  }

  lemma CloseAnywhere(g: P.Setting, st: P.State, space: string, prefix: Option<string>, local: string)
    requires P.StateOk(g, st)
    ensures Run(g, st, [Item(space, Close(prefix, local))]) == Run(g, st, [Item("", Close(prefix, local))])
  {
    hide P.StateOk, Run, P.Step;
    RunOne(g, st, Item(space, Close(prefix, local)));
    RunOne(g, st, Item("", Close(prefix, local)));
  }

  lemma TextAnywhere(g: P.Setting, st: P.State, text: string, lead: string)
    requires P.StateOk(g, st)
    ensures Run(g, st, TextItems(text, lead)) == Run(g, st, TextItems(text, ""))
  {
    hide P.StateOk, Run, Split, Led;
    if text != "" {
      RunLed(g, st, lead, SectionItems(Sections(Split(text), "")));
      RunLed(g, st, "", SectionItems(Sections(Split(text), "")));
    }
  }

  /** An element runs as its opening, its text, its children and its end. */
  lemma {:induction false} WrapInner(g: P.Setting, opts: Options, indent: string, prefix: Option<string>, local: string,
                                     attrs: seq<RawAttr>, text: string, kids: seq<Item>, st: P.State)
    requires P.StateOk(g, st) && Keeps(g, kids)
    ensures var inner := Inner(g, st, prefix, local, attrs, text, kids);
            && (inner.Some? ==> P.StateOk(g, inner.value) && |inner.value.scopes| >= 2)
            && Run(g, st, Wrap(opts, indent, prefix, local, attrs, text, kids))
               == match inner case None => None case Some(st3) => P.Leave(g, st3)
  {
    hide P.StateOk, P.Step, P.Leave, Run, TokenOf, TextItems, Keeps, Kept, Decoded, P.Entered, P.NamespaceOf, P.Resolved, Opened, P.Name.Text;
    var open, closed := Item(indent, Open(prefix, local, attrs, false)), Item(indent, Open(prefix, local, attrs, true));
    var end, near := Item(opts.newline + indent, Close(prefix, local)), Item("", Close(prefix, local));
    OpenIs(g, st, prefix, local, attrs);
    RunOne(g, st, open);
    RunOne(g, st, closed);
    var lead := opts.newline + (indent + opts.indent);
    RunAppend(g, st, [open], TextItems(text, lead) + (kids + [end]));
    RunAppend(g, st, [open], TextItems(text, "") + [near]);
    var s1 := P.Step(g, st, TokenOf(open.markup));
    if s1.Some? {
      var st1 := s1.value;
      InsideRuns(g, st1, prefix, local, text, lead, kids, end);
      InsideNear(g, st1, prefix, local, text, near);
      if kids == [] { NoKids(g, st1, text); }
    }
  }

  lemma NoKids(g: P.Setting, st1: P.State, text: string)
    requires P.StateOk(g, st1)
    ensures var s2 := Run(g, st1, TextItems(text, "")); s2.Some? ==> Run(g, s2.value, []) == s2
    ensures text == "" ==> Run(g, st1, TextItems(text, "")) == Some(st1)
  {
    hide P.StateOk;
    var s2 := Run(g, st1, TextItems(text, ""));
    if s2.Some? { RunNone(g, s2.value); }
    NoTextItems("");
    RunNone(g, st1);
  }

  /** Text and children keep the state, so the end tag fits. */
  lemma {:induction false} InsideRuns(g: P.Setting, st1: P.State, prefix: Option<string>, local: string, text: string, lead: string,
                                      kids: seq<Item>, end: Item)
    requires P.StateOk(g, st1) && |st1.scopes| >= 2 && st1.scopes[|st1.scopes| - 1].qName == P.Name(prefix, local).Text()
    requires Keeps(g, kids) && end.markup == Close(prefix, local)
    ensures var s2 := Run(g, st1, TextItems(text, ""));
            var s3 := if s2.None? then None else Run(g, s2.value, kids);
            && (s3.Some? ==> |s3.value.scopes| >= 2 && P.StateOk(g, s3.value))
            && Run(g, st1, TextItems(text, lead) + (kids + [end]))
               == match s3 case None => None case Some(st3) => P.Leave(g, st3)
  {
    hide P.StateOk, P.Leave, Run, TextItems, P.Name.Text;
    TextKept(g, text, "");
    TextAnywhere(g, st1, text, lead);
    RunAppend(g, st1, TextItems(text, lead), kids + [end]);
    var s2 := Run(g, st1, TextItems(text, ""));
    if s2.Some? {
      RunAppend(g, s2.value, kids, [end]);
      var s3 := Run(g, s2.value, kids);
      if s3.Some? {
        KeptJoins(st1, s2.value, s3.value);
        CloseAnywhere(g, s3.value, end.space, prefix, local);
        LeaveWhole(g, s3.value, prefix, local);
      }
    }
  }

  lemma {:induction false} InsideNear(g: P.Setting, st1: P.State, prefix: Option<string>, local: string, text: string, near: Item)
    requires P.StateOk(g, st1) && |st1.scopes| >= 2 && st1.scopes[|st1.scopes| - 1].qName == P.Name(prefix, local).Text()
    requires near == Item("", Close(prefix, local))
    ensures var s2 := Run(g, st1, TextItems(text, ""));
            && (s2.Some? ==> |s2.value.scopes| >= 2 && P.StateOk(g, s2.value))
            && Run(g, st1, TextItems(text, "") + [near]) == match s2 case None => None case Some(st2) => P.Leave(g, st2)
  {
    hide P.StateOk, P.Leave, Run, TextItems, P.Name.Text;
    TextKept(g, text, "");
    RunAppend(g, st1, TextItems(text, ""), [near]);
    var s2 := Run(g, st1, TextItems(text, ""));
    if s2.Some? { LeaveWhole(g, s2.value, prefix, local); }
  }

  // ------------------------------------------------------------------ where an element goes

  /** The frame, with one object more in the slot of the rule with this key, if there is one. */
  ghost predicate Grown(g: P.Setting, f: Frame, h: Frame, key: string)
  {
    match FindElement(RulesOf(g.schema, f).elements, key)
    case None => h == f
    case Some(k) => f.element.Some? && k < |f.element.value.fields| && exists x :: h == Attach(f, k, x)
  }

  /** Ending an element that was opened gives back the state before it, but for the object in its slot. */
  lemma {:induction false} LeaveGrows(g: P.Setting, st: P.State, st1: P.State, st3: P.State)
    requires P.StateOk(g, st) && P.StateOk(g, st3) && |st3.scopes| >= 2 && Kept(st1, st3)
    requires st1.frames != [] && st1.frames[..|st1.frames| - 1] == st.frames
    requires st1.scopes != [] && st1.scopes[..|st1.scopes| - 1] == st.scopes
    ensures var r := P.Leave(g, st3); var slot := Top(st1).slot;
            r.Some? ==> if slot.None? then r.value == st
                        else && Top(st).element.Some? && slot.value < |Top(st).element.value.fields| && Ended(g.schema, Top(st3)).Some?
                             && r.value == WithTop(st, Attach(Top(st), slot.value, Ended(g.schema, Top(st3)).value))
  {
    hide Validates;
    assert st3.frames[..|st3.frames| - 1] == st.frames;
    assert StackOk(g.schema, st3.frames);
  }

  /** Opening looks for the rule of the name. */
  lemma OpenedSlot(g: P.Setting, stack: seq<Frame>, local: string, ns: Option<string>, attrs: seq<Attribute>)
    requires stack != [] && FrameOk(g.schema, stack[|stack| - 1])
    ensures var o := Opened(g.schema, g.validate, stack, local, ns, attrs);
            var parent := stack[|stack| - 1];
            o.Some? ==> o.value == stack + [o.value[|stack|]]
                        && o.value[|stack|].slot == FindElement(RulesOf(g.schema, parent).elements, RuleKey(local, ns))
                        && (o.value[|stack|].slot.Some? ==> o.value[|stack|].element.Some?)
  {
    hide RuleKey, AssignAll, Defaults, Missing;
    FoundElement(RulesOf(g.schema, stack[|stack| - 1]).elements, RuleKey(local, ns));
  }

  lemma KeptItself(st: P.State)
    requires st.frames != []
    ensures Kept(st, st)
  {
  }

  lemma KeptAttached(st: P.State, k: nat, x: Obj)
    requires st.frames != [] && Top(st).element.Some? && k < |Top(st).element.value.fields|
    ensures Kept(st, WithTop(st, Attach(Top(st), k, x))) && Top(WithTop(st, Attach(Top(st), k, x))) == Attach(Top(st), k, x)
  {
  }

  /** A whole element keeps the state, and its object goes where its name sends it. */
  lemma {:induction false} WrapGrows(g: P.Setting, opts: Options, indent: string, prefix: Option<string>, local: string,
                                     attrs: seq<RawAttr>, text: string, kids: seq<Item>, st: P.State)
    requires P.StateOk(g, st) && Keeps(g, kids)
    ensures var r := Run(g, st, Wrap(opts, indent, prefix, local, attrs, text, kids));
            var scopes := P.Entered(st.scopes, P.Name(prefix, local), Decoded(attrs));
            r.Some? ==> Kept(st, r.value) && Grown(g, Top(st), Top(r.value), RuleKey(local, P.NamespaceOf(scopes, prefix)))
  {
    hide StackOk, P.Step, P.Leave, Run, TokenOf, TextItems, Kept, Decoded, P.Prefixes, P.DefaultNs, P.NamespaceOf, P.Resolved,
         Opened, P.Name.Text, Wrap, RuleKey, RulesOf, FindElement, Ended;
    WrapInner(g, opts, indent, prefix, local, attrs, text, kids, st);
    OpenIs(g, st, prefix, local, attrs);
    var scopes := P.Entered(st.scopes, P.Name(prefix, local), Decoded(attrs));
    var ns := P.NamespaceOf(scopes, prefix);
    OpenedSlot(g, st.frames, local, ns, P.Resolved(scopes, Decoded(attrs)));
    var inner := Inner(g, st, prefix, local, attrs, text, kids);
    if inner.Some? {
      var st1 := P.Step(g, st, TokenOf(Open(prefix, local, attrs, false))).value;
      TextKept(g, text, "");
      var st2 := Run(g, st1, TextItems(text, "")).value;
      KeptJoins(st1, st2, inner.value);
      LeaveGrows(g, st, st1, inner.value);
      KeptItself(st);
      var slot := Top(st1).slot;
      if slot.Some? && P.Leave(g, inner.value).Some? {
        KeptAttached(st, slot.value, Ended(g.schema, Top(inner.value)).value);
      }
    }
  }

  lemma WrapKept(g: P.Setting, opts: Options, indent: string, prefix: Option<string>, local: string, attrs: seq<RawAttr>, text: string,
                 kids: seq<Item>)
    requires Keeps(g, kids)
    ensures Keeps(g, Wrap(opts, indent, prefix, local, attrs, text, kids))
  {
    hide P.StateOk, Run, Kept, Wrap, Grown, Decoded, P.Entered, P.NamespaceOf, Keeps;
    forall st | P.StateOk(g, st) && Run(g, st, Wrap(opts, indent, prefix, local, attrs, text, kids)).Some?
      ensures Kept(st, Run(g, st, Wrap(opts, indent, prefix, local, attrs, text, kids)).value)
    {
      WrapGrows(g, opts, indent, prefix, local, attrs, text, kids, st);
    }
    KeepsIf(g, Wrap(opts, indent, prefix, local, attrs, text, kids));
  }

  lemma KeepsIf(g: P.Setting, items: seq<Item>)
    requires forall st :: P.StateOk(g, st) && Run(g, st, items).Some? ==> Kept(st, Run(g, st, items).value)
    ensures Keeps(g, items)
  {
  }

  lemma {:induction false} ElementKept(g: P.Setting, opts: Options, used: seq<Binding>, o: Obj, rule: ElementRule, at: Place)
    requires rule.rules < |g.schema| && Shaped(g.schema, rule.rules, o)
    ensures var w := ElementItems(g.schema, opts, used, o, rule, at); w.Some? ==> Keeps(g, w.value.items)
    decreases o
  {
    hide Named, PrefixFor, AttributeItems, ChildItems, ElementItems, Wrap, TagAttrs, AllShaped, Keeps;
    var rules := g.schema[rule.rules];
    ElementIs(g.schema, opts, used, o, rule, at);
    var a := AttributeItems(opts, used, rules.attributes, o.attributes);
    if a.Some? {
      var c := ChildItems(g.schema, opts, a.value.used, rules.elements, o.fields, Below(opts, at, rule.ns));
      ChildrenKept(g, opts, a.value.used, rules.elements, o.fields, Below(opts, at, rule.ns));
      if c.Some? {
        WrapKept(g, opts, at.indent, ElementPrefix(opts, c.value.used, at.xmlns, rule.ns), rule.local,
                 TagAttrs(at, rule.ns, c.value.used, a.value.attrs), o.text, c.value.items);
      }
    }
  }

  lemma {:induction false} ChildrenKept(g: P.Setting, opts: Options, used: seq<Binding>, rules: seq<ElementRule>, fs: seq<Field>,
                                        at: Place)
    requires AllShaped(g.schema, rules, fs)
    ensures var w := ChildItems(g.schema, opts, used, rules, fs, at); w.Some? ==> Keeps(g, w.value.items)
    decreases fs
  {
    hide ListItems, Counted, ListShaped, Keeps;
    if fs == [] {
      NothingKeeps(g);
    } else {
      ListKept(g, opts, used, rules[0], fs[0].items, at);
      var w := ListItems(g.schema, opts, used, rules[0], fs[0].items, at);
      if w.Some? {
        ChildrenKept(g, opts, w.value.used, rules[1..], fs[1..], at);
        var c := ChildItems(g.schema, opts, w.value.used, rules[1..], fs[1..], at);
        if c.Some? { KeepsBoth(g, w.value.items, c.value.items); }
      }
    }
  }

  lemma {:induction false} ListKept(g: P.Setting, opts: Options, used: seq<Binding>, rule: ElementRule, items: seq<Obj>, at: Place)
    requires rule.rules < |g.schema| && ListShaped(g.schema, rule.rules, items)
    ensures var w := ListItems(g.schema, opts, used, rule, items, at); w.Some? ==> Keeps(g, w.value.items)
    decreases items
  {
    hide ElementItems, Shaped, Led, Keeps;
    if items == [] {
      NothingKeeps(g);
    } else {
      ElementKept(g, opts, used, items[0], rule, at);
      var w := ElementItems(g.schema, opts, used, items[0], rule, at);
      if w.Some? {
        LedKeeps(g, opts.newline, w.value.items);
        ListKept(g, opts, w.value.used, rule, items[1..], at);
        var c := ListItems(g.schema, opts, w.value.used, rule, items[1..], at);
        if c.Some? { KeepsBoth(g, Led(opts.newline, w.value.items), c.value.items); }
      }
    }
  }

  // ------------------------------------------------------------------ under which name an element is read

  /** The parser knows the namespaces the writer has in use here. */
  ghost predicate Knows(opts: Options, st: P.State, at: Place, all: seq<Binding>, last: seq<Binding>)
  {
    && st.scopes != [] && st.scopes[|st.scopes| - 1].default == ReadNs(at.xmlns)
    && if at.depth > 0 then Binds(st.scopes, all) && last <= all else at.xmlns.None? && Apart(last)
  }

  /** A written element goes to the slot of its own local name and the namespace as it is read. */
  lemma {:induction false} ElementPlaced(g: P.Setting, opts: Options, used: seq<Binding>, o: Obj, rule: ElementRule, at: Place,
                                         st: P.State, all: seq<Binding>)
    requires OptionsOk(opts) && SchemaOk(g.schema) && UsedOk(opts, used) && ElementOk(g.schema, rule) && Shaped(g.schema, rule.rules, o)
    requires P.StateOk(g, st) && ElementItems(g.schema, opts, used, o, rule, at).Some?
    requires Knows(opts, st, at, all, ElementItems(g.schema, opts, used, o, rule, at).value.used)
    ensures var r := Run(g, st, ElementItems(g.schema, opts, used, o, rule, at).value.items);
            r.Some? ==> Kept(st, r.value) && Grown(g, Top(st), Top(r.value), RuleKey(rule.local, ReadNs(rule.ns)))
  {
    hide OptionsOk, UsedOk, Named, PrefixFor, AttributeItems, ChildItems, ElementItems, Wrap, TagAttrs, AllShaped, Keeps, P.StateOk,
         Run, Kept, Grown, Decoded, P.Entered, P.NamespaceOf, RuleKey, ReadNs, Binds, Apart, AttributeOk, DistinctAttributes,
         DistinctElements, IsName, UriOk, ElementPrefix;
    var rules := g.schema[rule.rules];
    RulesIn(g.schema, rule.rules, 0, rules.elements);
    assert rules in g.schema;
    ElementParts(g, opts, used, o, rule, at);
    var a := AttributeItems(opts, used, rules.attributes, o.attributes).value;
    var below := Below(opts, at, rule.ns);
    var c := ChildItems(g.schema, opts, a.used, rules.elements, o.fields, below).value;
    var last := ElementItems(g.schema, opts, used, o, rule, at).value.used;
    AttributesGrow(opts, used, rules.attributes, o.attributes);
    ChildrenGrow(g.schema, opts, a.used, rules.elements, o.fields, below);
    NamedGrows(opts, c.used, rule.ns);
    ChildrenKept(g, opts, a.used, rules.elements, o.fields, below);
    AttributesSourced(opts, used, rules.attributes, o.attributes, c.used);
    EncodedValues(opts, used, rules.attributes, o.attributes);
    if at.depth == 0 { ApartFront(c.used, last); }
    NameResolves(g, opts, st, rule, at, c.used, all, rules.attributes, a.attrs);
    WrapGrows(g, opts, at.indent, ElementPrefix(opts, c.used, at.xmlns, rule.ns), rule.local, TagAttrs(at, rule.ns, c.used, a.attrs),
              o.text, c.items, st);
    InsideDef(opts, st, rule, at, c.used, a.attrs);
  }

  lemma InsideDef(opts: Options, st: P.State, rule: ElementRule, at: Place, used: seq<Binding>, attrs: seq<RawAttr>)
    requires st.scopes != []
    ensures Inside(opts, st, rule, at, used, attrs)
         == P.Entered(st.scopes, P.Name(ElementPrefix(opts, used, at.xmlns, rule.ns), rule.local), Decoded(TagAttrs(at, rule.ns, used, attrs)))
  {
  }

  /** The parts of a written element, and the bindings behind it. */
  lemma ElementParts(g: P.Setting, opts: Options, used: seq<Binding>, o: Obj, rule: ElementRule, at: Place)
    requires rule.rules < |g.schema| && Shaped(g.schema, rule.rules, o) && ElementItems(g.schema, opts, used, o, rule, at).Some?
    ensures var rules := g.schema[rule.rules];
            var a := AttributeItems(opts, used, rules.attributes, o.attributes);
            && a.Some?
            && var c := ChildItems(g.schema, opts, a.value.used, rules.elements, o.fields, Below(opts, at, rule.ns));
            && c.Some?
            && ElementItems(g.schema, opts, used, o, rule, at).value.items
               == Wrap(opts, at.indent, ElementPrefix(opts, c.value.used, at.xmlns, rule.ns), rule.local,
                       TagAttrs(at, rule.ns, c.value.used, a.value.attrs), o.text, c.value.items)
            && ElementItems(g.schema, opts, used, o, rule, at).value.used
               == if rule.ns == ScopeOf(at.xmlns, rule.ns) then c.value.used else Named(opts, c.value.used, rule.ns)
  {
    hide AttributeItems, ChildItems, Wrap, TagAttrs, AllShaped, Named, PrefixFor;
    ElementIs(g.schema, opts, used, o, rule, at);
  }

  // ------------------------------------------------------------------ attributes

  /** The attribute is written for rule `i`. */
  ghost predicate WrittenFor(a: RawAttr, rules: seq<AttributeRule>, values: seq<Option<string>>, i: nat, all: seq<Binding>)
    requires |rules| == |values|
  {
    i < |rules| && Writes(rules[i], values[i]) && FromRule(a, rules[i], all)
  }

  lemma {:induction false} WrittenSourced(opts: Options, used: seq<Binding>, rules: seq<AttributeRule>, values: seq<Option<string>>,
                                          k: nat, all: seq<Binding>)
    requires OptionsOk(opts) && UsedOk(opts, used) && |rules| == |values| && k <= |rules|
    requires forall r :: r in rules ==> AttributeOk(r)
    requires var w := AttributeItems(opts, used, rules[k..], values[k..]); w.Some? && w.value.used <= all
    ensures forall a :: a in AttributeItems(opts, used, rules[k..], values[k..]).value.attrs ==> exists i :: WrittenFor(a, rules, values, i, all)
    decreases |rules| - k
  {
    hide OptionsOk, UsedOk, Named, PrefixFor, EncodeEntities, AttributeOk, FromRule;
    if k < |rules| {
      var r, v := rules[k], values[k];
      assert rules[k..][0] == r && values[k..][0] == v;
      assert rules[k..][1..] == rules[k + 1..] && values[k..][1..] == values[k + 1..];
      if v.None? || v == r.default {
        WrittenSourced(opts, used, rules, values, k + 1, all);
      } else {
        var next := Named(opts, used, r.ns);
        NsOfRule(r);
        NamedGrows(opts, used, r.ns);
        assert forall x :: x in rules[k + 1..] ==> x in rules;
        AttributesGrow(opts, next, rules[k + 1..], values[k + 1..]);
        WrittenSourced(opts, next, rules, values, k + 1, all);
        var a := RawAttr(PrefixFor(opts, used, r.ns), r.local, EncodeEntities(v.value));
        WrittenFrom(opts, used, r, a, all);
        assert WrittenFor(a, rules, values, k, all);
      }
    }
  }

  /** Nothing sets a property that no attribute is for. */
  lemma {:induction false} NotAssigned(rules: seq<AttributeRule>, values: seq<Option<string>>, attrs: seq<Attribute>, k: nat)
    requires k < |values| && forall a :: a in attrs ==> FindAttribute(rules, RuleKey(a.local, a.ns)) != Some(k)
    ensures AssignAll(rules, values, attrs)[k] == values[k]
    decreases |attrs|
  {
    hide RuleKey, FindAttribute;
    if attrs != [] {
      assert attrs[0] in attrs;
      NotAssigned(rules, Assign(rules, values, attrs[0]), attrs[1..], k);
    }
  }

  function Weight(ns: Option<string>): nat { |NsText(ns)| }

  /** Of the written attributes whose namespaces are not read as written, one with a longest namespace. */
  lemma {:induction false} LongestAttribute(rules: seq<AttributeRule>, values: seq<Option<string>>) returns (k: nat)
    requires |rules| == |values| && !LiteralAttributes(rules, values)
    ensures k < |rules| && Writes(rules[k], values[k]) && !LiteralNs(rules[k].ns)
    ensures forall i :: 0 <= i < |rules| && Writes(rules[i], values[i]) && !LiteralNs(rules[i].ns) ==> Weight(rules[i].ns) <= Weight(rules[k].ns)
    decreases |rules|
  {
    hide LiteralNs, Writes, Weight;
    var n := |rules| - 1;
    assert forall i :: 0 <= i < n ==> rules[..n][i] == rules[i] && values[..n][i] == values[i];
    if LiteralAttributes(rules[..n], values[..n]) {
      k := n;
    } else {
      k := LongestAttribute(rules[..n], values[..n]);
      if Writes(rules[n], values[n]) && !LiteralNs(rules[n].ns) && Weight(rules[n].ns) > Weight(rules[k].ns) { k := n; }
    }
  }

  /** A name is read under another rule's key only if that rule has a shorter namespace, or the name is that rule's own. */
  lemma KeyShrinks(local: string, ns: Option<string>, l: string, n: Option<string>)
    requires ':' !in local && ':' !in l && NsOk(ns) && NsOk(n) && !LiteralNs(n)
    requires RuleKey(local, ReadNs(ns)) == RuleKey(l, n)
    ensures !LiteralNs(ns) && Weight(ns) > Weight(n)
  {
    hide RuleKey;
    KeyInjective(local, ReadNs(ns), l, n);
    DecodeShrinks(NsText(ns));
  }

  /** The property of such an attribute is not set. */
  lemma {:induction false} AttributeLost(opts: Options, used: seq<Binding>, rules: seq<AttributeRule>, values: seq<Option<string>>,
                                         at: Place, ns: Option<string>, all: seq<Binding>, scopes: seq<P.Scope>)
    requires OptionsOk(opts) && UsedOk(opts, used) && UsedOk(opts, all) && |rules| == |values| && NsOk(ns)
    requires (forall r :: r in rules ==> AttributeOk(r)) && DistinctAttributes(rules) && Binds(scopes, all)
    requires AttributeItems(opts, used, rules, values).Some? && AttributeItems(opts, used, rules, values).value.used <= all
    requires !LiteralAttributes(rules, values)
    ensures var attrs := AttributeItems(opts, used, rules, values).value.attrs;
            var read := AssignAll(rules, seq(|rules|, _ => None), P.Resolved(scopes, Decoded(TagAttrs(at, ns, all, attrs))));
            Defaults(rules, read) != Defaults(rules, values)
  {
    hide OptionsOk, UsedOk, AttributeItems, AttributeOk, DistinctAttributes, Binds, Front, P.Resolved, Decoded, TagAttrs, AssignAll,
         LiteralAttributes, LiteralNs, Defaults, WrittenFor, Writes;
    var attrs := AttributeItems(opts, used, rules, values).value.attrs;
    var blank: seq<Option<string>> := seq(|rules|, _ => None);
    TagIs(at, ns, all, attrs);
    DecodedAppend(Front(at, ns, all), attrs);
    var front, rest := P.Resolved(scopes, Decoded(Front(at, ns, all))), P.Resolved(scopes, Decoded(attrs));
    ResolvedAppend(scopes, Decoded(Front(at, ns, all)), Decoded(attrs));
    AssignAppend(rules, blank, front, rest);
    FrontDecoded(opts, at, ns, all);
    FrontAssigns(rules, blank, scopes, Decoded(Front(at, ns, all)));
    var k := LongestAttribute(rules, values);
    assert rules[0..] == rules && values[0..] == values;
    WrittenSourced(opts, used, rules, values, 0, all);
    forall a | a in rest ensures FindAttribute(rules, RuleKey(a.local, a.ns)) != Some(k) {
      ResolvedFrom(opts, rules, values, attrs, all, scopes, a, k);
    }
    NotAssigned(rules, blank, rest, k);
    DefaultsAt(rules, AssignAll(rules, blank, rest), k);
    DefaultsAt(rules, values, k);
    WritesAt(rules[k], values[k]);
  }

  lemma WritesAt(r: AttributeRule, value: Option<string>)
    requires Writes(r, value)
    ensures value.Some? && value != r.default
  {
  }

  lemma {:induction false} DefaultsAt(rules: seq<AttributeRule>, values: seq<Option<string>>, k: nat)
    requires |rules| == |values| && k < |rules|
    ensures |Defaults(rules, values)| == |rules| && Defaults(rules, values)[k] == if values[k].Some? then values[k] else rules[k].default
    decreases |rules|
  {
    if k > 0 { DefaultsAt(rules[1..], values[1..], k - 1); } else { DefaultsSame(rules, values); }
  }

  lemma {:induction false} ResolvedFrom(opts: Options, rules: seq<AttributeRule>, values: seq<Option<string>>, attrs: seq<RawAttr>,
                                        all: seq<Binding>, scopes: seq<P.Scope>, a: Attribute, k: nat)
    requires OptionsOk(opts) && UsedOk(opts, all) && |rules| == |values| && Binds(scopes, all)
    requires (forall r :: r in rules ==> AttributeOk(r)) && a in P.Resolved(scopes, Decoded(attrs))
    requires forall x :: x in attrs ==> exists i :: WrittenFor(x, rules, values, i, all)
    requires k < |rules| && Writes(rules[k], values[k]) && !LiteralNs(rules[k].ns)
    requires forall i :: 0 <= i < |rules| && Writes(rules[i], values[i]) && !LiteralNs(rules[i].ns) ==> Weight(rules[i].ns) <= Weight(rules[k].ns)
    ensures FindAttribute(rules, RuleKey(a.local, a.ns)) != Some(k)
  {
    hide OptionsOk, UsedOk, AttributeOk, Binds, FindAttribute, RuleKey, LiteralNs, Writes, Weight, DecodeEntities, P.AttributeNs, FromRule;
    var x := ResolvedOf(scopes, attrs, a);
    var i: nat :| WrittenFor(x, rules, values, i, all);
    var r := rules[i];
    assert r in rules && rules[k] in rules;
    RuleNs(opts, all, scopes, x, r);
    LocalOf(x, r, all);
    assert a.local == r.local && a.ns == ReadNs(r.ns);
    FoundAttribute(rules, RuleKey(a.local, a.ns));
    if FindAttribute(rules, RuleKey(a.local, a.ns)) == Some(k) {
      PlainRule(r);
      PlainRule(rules[k]);
      KeyShrinks(r.local, r.ns, rules[k].local, rules[k].ns);
    }
  }

  lemma LocalOf(x: RawAttr, r: AttributeRule, all: seq<Binding>)
    requires FromRule(x, r, all)
    ensures x.local == r.local
  {
  }

  lemma PlainRule(r: AttributeRule)
    requires AttributeOk(r)
    ensures ':' !in r.local && NsOk(r.ns)
  {
    hide IsName;
    NoColon(r.local);
  }

  /** Every resolved attribute comes from a written one. */
  lemma {:induction false} ResolvedOf(scopes: seq<P.Scope>, attrs: seq<RawAttr>, a: Attribute) returns (x: RawAttr)
    requires a in P.Resolved(scopes, Decoded(attrs))
    ensures x in attrs && a == Attribute(x.local, P.AttributeNs(scopes, P.RawAttribute(NameOf(x), DecodeEntities(x.raw))), DecodeEntities(x.raw))
    decreases |attrs|
  {
    hide P.AttributeNs, DecodeEntities;
    var d := Decoded(attrs);
    assert d[1..] == Decoded(attrs[1..]);
    var r := P.Resolved(scopes, d);
    if a == r[0] {
      x := attrs[0];
    } else {
      assert r[1..] == P.Resolved(scopes, d[1..]);
      x := ResolvedOf(scopes, attrs[1..], a);
    }
  }

  // ------------------------------------------------------------------ children

  /** The fields of the open element. */
  function FieldsOf(st: P.State): seq<Field>
    requires st.frames != [] && Top(st).element.Some?
  {
    Top(st).element.value.fields
  }

  /** The children of one rule stand open in an element with rules `r`. */
  ghost predicate OpenIn(g: P.Setting, st: P.State, r: nat)
  {
    && P.StateOk(g, st) && r < |g.schema| && Top(st).rules == Some(r) && Top(st).element.Some?
    && |FieldsOf(st)| == |g.schema[r].elements|
  }

  lemma OpenKept(g: P.Setting, a: P.State, b: P.State, r: nat)
    requires OpenIn(g, a, r) && Kept(a, b) && P.StateOk(g, b)
    ensures OpenIn(g, b, r)
  {
    hide P.StateOk;
  }

  lemma KnowsKept(opts: Options, a: P.State, b: P.State, at: Place, all: seq<Binding>, last: seq<Binding>)
    requires Knows(opts, a, at, all, last) && Kept(a, b)
    ensures Knows(opts, b, at, all, last)
  {
    hide Binds, Apart;
  }

  lemma KnowsFront(opts: Options, st: P.State, at: Place, all: seq<Binding>, last: seq<Binding>, some: seq<Binding>)
    requires Knows(opts, st, at, all, last) && some <= last
    ensures Knows(opts, st, at, all, some)
  {
    hide Binds, Apart;
    if at.depth == 0 { ApartFront(some, last); }
  }

  /** The slot an element of the rule is read into. */
  function SlotOf(g: P.Setting, r: nat, rule: ElementRule): Option<nat>
    requires r < |g.schema|
  {
    FindElement(g.schema[r].elements, RuleKey(rule.local, ReadNs(rule.ns)))
  }

  lemma GrownSlot(g: P.Setting, st: P.State, st1: P.State, r: nat, rule: ElementRule, k: nat)
    requires OpenIn(g, st, r) && Kept(st, st1) && Grown(g, Top(st), Top(st1), RuleKey(rule.local, ReadNs(rule.ns))) && k < |FieldsOf(st)|
    ensures SlotOf(g, r, rule) != Some(k) ==> FieldsOf(st1)[k] == FieldsOf(st)[k]
    ensures SlotOf(g, r, rule) == Some(k) ==> exists x :: Top(st1) == Attach(Top(st), k, x)
  {
    hide RuleKey, ReadNs, FindElement, P.StateOk;
  }

  /** Elements of a rule leave all slots alone but their own. */
  lemma {:induction false} ListMisses(g: P.Setting, opts: Options, used: seq<Binding>, rule: ElementRule, items: seq<Obj>, at: Place,
                                      st: P.State, all: seq<Binding>, r: nat, k: nat)
    requires OptionsOk(opts) && SchemaOk(g.schema) && UsedOk(opts, used) && ElementOk(g.schema, rule) && ListShaped(g.schema, rule.rules, items)
    requires OpenIn(g, st, r) && ListItems(g.schema, opts, used, rule, items, at).Some?
    requires Knows(opts, st, at, all, ListItems(g.schema, opts, used, rule, items, at).value.used)
    requires k < |FieldsOf(st)| && (items != [] ==> SlotOf(g, r, rule) != Some(k))
    ensures var x := Run(g, st, ListItems(g.schema, opts, used, rule, items, at).value.items);
            x.Some? ==> Kept(st, x.value) && FieldsOf(x.value)[k] == FieldsOf(st)[k]
    decreases items
  {
    hide OptionsOk, UsedOk, ElementItems, Shaped, Led, P.StateOk, Run, Knows, Grown, SlotOf, SchemaOk, RuleKey, ReadNs, IsName;
    if items == [] {
      RunNone(g, st);
      FramesThere(g, st);
      KeptItself(st);
    } else {
      ListFirst(g, opts, used, rule, items, at, st, all);
      var w := ElementItems(g.schema, opts, used, items[0], rule, at).value;
      var c := ListItems(g.schema, opts, w.used, rule, items[1..], at).value;
      RunLed(g, st, opts.newline, w.items);
      RunAppend(g, st, Led(opts.newline, w.items), c.items);
      ElementPlaced(g, opts, used, items[0], rule, at, st, all);
      var x := Run(g, st, w.items);
      if x.Some? {
        GrownSlot(g, st, x.value, r, rule, k);
        OpenKept(g, st, x.value, r);
        KnowsKept(opts, st, x.value, at, all, c.used);
        ListMisses(g, opts, w.used, rule, items[1..], at, x.value, all, r, k);
        var y := Run(g, x.value, c.items);
        if y.Some? { KeptJoins(st, x.value, y.value); }
      }
    }
  }

  /** The first element of a list and the rest of it, as the writer has them. */
  lemma ListFirst(g: P.Setting, opts: Options, used: seq<Binding>, rule: ElementRule, items: seq<Obj>, at: Place, st: P.State,
                  all: seq<Binding>)
    requires OptionsOk(opts) && SchemaOk(g.schema) && UsedOk(opts, used) && ElementOk(g.schema, rule) && ListShaped(g.schema, rule.rules, items)
    requires items != [] && ListItems(g.schema, opts, used, rule, items, at).Some?
    requires Knows(opts, st, at, all, ListItems(g.schema, opts, used, rule, items, at).value.used)
    ensures var w := ElementItems(g.schema, opts, used, items[0], rule, at);
            && w.Some? && UsedOk(opts, w.value.used)
            && Knows(opts, st, at, all, w.value.used)
            && var c := ListItems(g.schema, opts, w.value.used, rule, items[1..], at);
            && c.Some? && Knows(opts, st, at, all, c.value.used)
            && ListItems(g.schema, opts, used, rule, items, at).value.items == Led(opts.newline, w.value.items) + c.value.items
  {
    hide OptionsOk, UsedOk, ElementItems, Shaped, Led, Knows, SchemaOk;
    ElementGrows(g.schema, opts, used, items[0], rule, at);
    var w := ElementItems(g.schema, opts, used, items[0], rule, at).value;
    ListGrows(g.schema, opts, w.used, rule, items[1..], at);
    KnowsFront(opts, st, at, all, ListItems(g.schema, opts, used, rule, items, at).value.used, w.used);
  }

  lemma ChildrenFirst(g: P.Setting, opts: Options, used: seq<Binding>, rules: seq<ElementRule>, fs: seq<Field>, at: Place, st: P.State,
                      all: seq<Binding>)
    requires OptionsOk(opts) && SchemaOk(g.schema) && UsedOk(opts, used) && AllShaped(g.schema, rules, fs) && fs != []
    requires (forall r :: r in rules ==> ElementOk(g.schema, r)) && ChildItems(g.schema, opts, used, rules, fs, at).Some?
    requires Knows(opts, st, at, all, ChildItems(g.schema, opts, used, rules, fs, at).value.used)
    ensures rules != [] && ElementOk(g.schema, rules[0]) && forall r :: r in rules[1..] ==> ElementOk(g.schema, r)
    ensures var w := ListItems(g.schema, opts, used, rules[0], fs[0].items, at);
            && w.Some? && UsedOk(opts, w.value.used)
            && Knows(opts, st, at, all, w.value.used)
            && var c := ChildItems(g.schema, opts, w.value.used, rules[1..], fs[1..], at);
            && c.Some? && Knows(opts, st, at, all, c.value.used)
            && ChildItems(g.schema, opts, used, rules, fs, at).value.items == w.value.items + c.value.items
  {
    hide OptionsOk, UsedOk, ListItems, ListShaped, Knows, SchemaOk, Counted, ElementOk;
    assert rules[0] in rules;
    assert ElementOk(g.schema, rules[0]);
    ListGrows(g.schema, opts, used, rules[0], fs[0].items, at);
    var w := ListItems(g.schema, opts, used, rules[0], fs[0].items, at).value;
    ChildrenGrow(g.schema, opts, w.used, rules[1..], fs[1..], at);
    KnowsFront(opts, st, at, all, ChildItems(g.schema, opts, used, rules, fs, at).value.used, w.used);
  }

  /** No child is read into slot `k`. */
  ghost predicate NoneFor(g: P.Setting, r: nat, rules: seq<ElementRule>, fs: seq<Field>, k: nat)
    requires r < |g.schema| && |rules| == |fs|
  {
    forall i :: 0 <= i < |fs| && fs[i].items != [] ==> SlotOf(g, r, rules[i]) != Some(k)
  }

  lemma {:induction false} ChildrenMiss(g: P.Setting, opts: Options, used: seq<Binding>, rules: seq<ElementRule>, fs: seq<Field>, at: Place,
                                        st: P.State, all: seq<Binding>, r: nat, k: nat)
    requires OptionsOk(opts) && SchemaOk(g.schema) && UsedOk(opts, used) && AllShaped(g.schema, rules, fs)
    requires (forall e :: e in rules ==> ElementOk(g.schema, e)) && ChildItems(g.schema, opts, used, rules, fs, at).Some?
    requires OpenIn(g, st, r) && Knows(opts, st, at, all, ChildItems(g.schema, opts, used, rules, fs, at).value.used)
    requires k < |FieldsOf(st)| && NoneFor(g, r, rules, fs, k)
    ensures var x := Run(g, st, ChildItems(g.schema, opts, used, rules, fs, at).value.items);
            x.Some? ==> Kept(st, x.value) && FieldsOf(x.value)[k] == FieldsOf(st)[k]
    decreases |fs|
  {
    hide OptionsOk, UsedOk, ListItems, ListShaped, P.StateOk, Run, Knows, SlotOf, ElementOk, SchemaOk, Counted;
    if fs == [] {
      RunNone(g, st);
      FramesThere(g, st);
      KeptItself(st);
    } else {
      ChildrenFirst(g, opts, used, rules, fs, at, st, all);
      var w := ListItems(g.schema, opts, used, rules[0], fs[0].items, at).value;
      var c := ChildItems(g.schema, opts, w.used, rules[1..], fs[1..], at).value;
      RunAppend(g, st, w.items, c.items);
      ListMisses(g, opts, used, rules[0], fs[0].items, at, st, all, r, k);
      var x := Run(g, st, w.items);
      if x.Some? {
        OpenKept(g, st, x.value, r);
        KnowsKept(opts, st, x.value, at, all, c.used);
        ChildrenMiss(g, opts, w.used, rules[1..], fs[1..], at, x.value, all, r, k);
        var y := Run(g, x.value, c.items);
        if y.Some? { KeptJoins(st, x.value, y.value); }
      }
    }
  }

  // ------------------------------------------------------------------ exactly the literal ones

  /** All children have namespaces that are read as written. */
  predicate Placed(rules: seq<ElementRule>, fs: seq<Field>)
    requires |rules| == |fs|
  {
    forall i :: 0 <= i < |fs| && fs[i].items != [] ==> LiteralNs(rules[i].ns)
  }

  lemma {:induction false} LongestChild(rules: seq<ElementRule>, fs: seq<Field>) returns (k: nat)
    requires |rules| == |fs| && !Placed(rules, fs)
    ensures k < |fs| && fs[k].items != [] && !LiteralNs(rules[k].ns)
    ensures forall i :: 0 <= i < |fs| && fs[i].items != [] && !LiteralNs(rules[i].ns) ==> Weight(rules[i].ns) <= Weight(rules[k].ns)
    decreases |fs|
  {
    hide LiteralNs, Weight;
    var n := |fs| - 1;
    assert forall i :: 0 <= i < n ==> rules[..n][i] == rules[i] && fs[..n][i] == fs[i];
    if Placed(rules[..n], fs[..n]) {
      k := n;
    } else {
      k := LongestChild(rules[..n], fs[..n]);
      if fs[n].items != [] && !LiteralNs(rules[n].ns) && Weight(rules[n].ns) > Weight(rules[k].ns) { k := n; }
    }
  }

  /** The slot of a child with a longest such namespace stays empty. */
  lemma {:induction false} SlotMissed(g: P.Setting, r: nat, rules: seq<ElementRule>, fs: seq<Field>, k: nat)
    requires SchemaOk(g.schema) && r < |g.schema| && rules == g.schema[r].elements && |rules| == |fs|
    requires k < |fs| && fs[k].items != [] && !LiteralNs(rules[k].ns)
    requires forall i :: 0 <= i < |fs| && fs[i].items != [] && !LiteralNs(rules[i].ns) ==> Weight(rules[i].ns) <= Weight(rules[k].ns)
    ensures NoneFor(g, r, rules, fs, k)
  {
    hide LiteralNs, Weight, FindElement, RuleKey, ReadNs, ElementOk, AttributeOk;
    assert g.schema[r] in g.schema;
    forall i | 0 <= i < |fs| && fs[i].items != [] ensures SlotOf(g, r, rules[i]) != Some(k) {
      var key := RuleKey(rules[i].local, ReadNs(rules[i].ns));
      FoundElement(rules, key);
      assert rules[i] in rules && rules[k] in rules;
      PlainElement(g.schema, rules[i]);
      PlainElement(g.schema, rules[k]);
      if FindElement(rules, key) == Some(k) { KeyShrinks(rules[i].local, rules[i].ns, rules[k].local, rules[k].ns); }
    }
  }

  lemma PlainElement(schema: Schema, e: ElementRule)
    requires ElementOk(schema, e)
    ensures ':' !in e.local && NsOk(e.ns)
  {
    hide IsName;
    NoColon(e.local);
  }

  /** What opening an element of a known rule puts on the stack. */
  lemma OpenedAt(g: P.Setting, stack: seq<Frame>, local: string, ns: Option<string>, attrs: seq<Attribute>, k: nat)
    requires stack != [] && FrameOk(g.schema, stack[|stack| - 1])
    requires FindElement(RulesOf(g.schema, stack[|stack| - 1]).elements, RuleKey(local, ns)) == Some(k)
    requires k < |RulesOf(g.schema, stack[|stack| - 1]).elements|
    ensures var o := Opened(g.schema, g.validate, stack, local, ns, attrs);
            var rule := RulesOf(g.schema, stack[|stack| - 1]).elements[k];
            o.Some? ==>
              && rule.rules < |g.schema|
              && var rules := g.schema[rule.rules];
              o.value == stack + [Frame(Some(Blank(rules).(attributes :=
                                    Defaults(rules.attributes, AssignAll(rules.attributes, Blank(rules).attributes, attrs)))), "",
                                    Some(rule.rules), Some(k))]
  {
    hide RuleKey, AssignAll, Defaults, Missing;
    FoundElement(RulesOf(g.schema, stack[|stack| - 1]).elements, RuleKey(local, ns));
  }

  /** Inside the tag of an element the parser knows what it declares. */
  lemma {:induction false} TagKnows(g: P.Setting, opts: Options, used: seq<Binding>, o: Obj, rule: ElementRule, at: Place, st: P.State,
                                    used1: seq<Binding>, last: seq<Binding>, all: seq<Binding>)
    requires OptionsOk(opts) && SchemaOk(g.schema) && UsedOk(opts, used) && UsedOk(opts, used1) && ElementOk(g.schema, rule)
    requires |o.attributes| == |g.schema[rule.rules].attributes| && Knows(opts, st, at, all, last) && used1 <= last
    requires rule.ns != ScopeOf(at.xmlns, rule.ns) ==> Named(opts, used1, rule.ns) <= last
    requires var a := AttributeItems(opts, used, g.schema[rule.rules].attributes, o.attributes); a.Some? && a.value.used <= used1
    ensures var attrs := AttributeItems(opts, used, g.schema[rule.rules].attributes, o.attributes).value.attrs;
            var scopes := Inside(opts, st, rule, at, used1, attrs);
            && P.NamespaceOf(scopes, ElementPrefix(opts, used1, at.xmlns, rule.ns)) == ReadNs(rule.ns)
            && Binds(scopes, used1) && scopes[|scopes| - 1].default == ReadNs(ScopeOf(at.xmlns, rule.ns))
  {
    hide OptionsOk, UsedOk, Named, PrefixFor, AttributeItems, TagAttrs, IsName, UriOk, Decoded, P.DefaultNs, P.Prefixes, P.NamespaceOf, Binds,
         Apart, AttributeOk, ReadNs, ElementPrefix, DistinctAttributes, DistinctElements;
    var rules := g.schema[rule.rules];
    assert rules in g.schema;
    var attrs := AttributeItems(opts, used, rules.attributes, o.attributes).value.attrs;
    AttributesSourced(opts, used, rules.attributes, o.attributes, used1);
    EncodedValues(opts, used, rules.attributes, o.attributes);
    if at.depth == 0 { ApartFront(used1, last); }
    NameResolves(g, opts, st, rule, at, used1, all, rules.attributes, attrs);
    DefaultBack(opts, at, rule.ns, used1, rules.attributes, attrs);
  }

  /** The frame of an element just opened in slot `k`, and the states before and behind its text. */
  ghost predicate Entering(g: P.Setting, opts: Options, st: P.State, rule: ElementRule, o: Obj, below: Place, used: seq<Binding>, k: nat,
                           st1: P.State, st2: P.State)
  {
    && st1.frames != [] && st1.scopes != [] && st1.frames == st.frames + [Top(st1)] && st1.scopes[..|st1.scopes| - 1] == st.scopes
    && st2 == P.State(st1.scopes, st.frames + [Top(st1).(characters := o.text)])
    && Top(st1).slot == Some(k) && Top(st1).element.Some? && rule.rules < |g.schema|
    && |o.attributes| == |g.schema[rule.rules].attributes|
    && (!LiteralAttributes(g.schema[rule.rules].attributes, o.attributes) ==>
          Top(st1).element.value.attributes != Defaults(g.schema[rule.rules].attributes, o.attributes))
    && OpenIn(g, st2, rule.rules) && (forall i :: 0 <= i < |FieldsOf(st2)| ==> FieldsOf(st2)[i] == Field([]))
    && Knows(opts, st2, below, used, used)
  }

  lemma {:induction false} ElementEnters(g: P.Setting, opts: Options, used: seq<Binding>, o: Obj, rule: ElementRule, at: Place,
                                         st: P.State, all: seq<Binding>, r: nat, k: nat) returns (st1: P.State, st2: P.State)
    requires OptionsOk(opts) && SchemaOk(g.schema) && UsedOk(opts, used) && ElementOk(g.schema, rule) && Shaped(g.schema, rule.rules, o)
    requires OpenIn(g, st, r) && k < |g.schema[r].elements| && g.schema[r].elements[k] == rule && LiteralNs(rule.ns)
    requires ElementItems(g.schema, opts, used, o, rule, at).Some?
    requires Knows(opts, st, at, all, ElementItems(g.schema, opts, used, o, rule, at).value.used)
    ensures var rules := g.schema[rule.rules];
            var a := AttributeItems(opts, used, rules.attributes, o.attributes);
            var below := Below(opts, at, rule.ns);
            && a.Some?
            && var c := ChildItems(g.schema, opts, a.value.used, rules.elements, o.fields, below);
            && c.Some?
            && var x := Run(g, st, ElementItems(g.schema, opts, used, o, rule, at).value.items);
            x.Some? ==>
              && Entering(g, opts, st, rule, o, below, c.value.used, k, st1, st2) && P.StateOk(g, st2)
              && var s3 := Run(g, st2, c.value.items);
              s3.Some? && |s3.value.scopes| >= 2 && x == P.Leave(g, s3.value)
  {
    hide OptionsOk, UsedOk, ElementItems, ChildItems, AttributeItems, StackOk, Run, Binds, TagAttrs, Wrap, Named, IsName, UriOk, PrefixFor,
         AllShaped, Inside, DistinctAttributes, DistinctElements, AttributeOk, P.Step, AllFilled, P.Entered, Decoded, TokenOf, RuleKey,
         P.Name.Text, Apart, LiteralAttributes, LiteralNs, AllLiteral, ReadNs, ElementPrefix, FindElement, Keeps, Opened, P.Resolved,
         P.NamespaceOf, P.Leave, Defaults, AssignAll, Knows, Kept, Ended, Inner, RulesOf, Attach, Filled, Literal;
    var rules := g.schema[rule.rules];
    RulesIn(g.schema, rule.rules, 0, rules.elements);
    assert rules in g.schema && g.schema[r] in g.schema;
    ElementParts(g, opts, used, o, rule, at);
    var a := AttributeItems(opts, used, rules.attributes, o.attributes).value;
    var below := Below(opts, at, rule.ns);
    var c := ChildItems(g.schema, opts, a.used, rules.elements, o.fields, below).value;
    var last := ElementItems(g.schema, opts, used, o, rule, at).value.used;
    AttributesGrow(opts, used, rules.attributes, o.attributes);
    ChildrenGrow(g.schema, opts, a.used, rules.elements, o.fields, below);
    NamedGrows(opts, c.used, rule.ns);
    ChildrenKept(g, opts, a.used, rules.elements, o.fields, below);
    TagKnows(g, opts, used, o, rule, at, st, c.used, last, all);
    var prefix, tag := ElementPrefix(opts, c.used, at.xmlns, rule.ns), TagAttrs(at, rule.ns, c.used, a.attrs);
    var scopes := Inside(opts, st, rule, at, c.used, a.attrs);
    InsideDef(opts, st, rule, at, c.used, a.attrs);
    InsideIs(opts, st, rule, at, c.used, a.attrs);
    WrapInner(g, opts, at.indent, prefix, rule.local, tag, o.text, c.items, st);
    OpenIs(g, st, prefix, rule.local, tag);
    SlotIs(g, st, rule, r, k);
    OpenedAt(g, st.frames, rule.local, ReadNs(rule.ns), P.Resolved(scopes, Decoded(tag)), k);
    st1, st2 := st, st;
    var inner := Inner(g, st, prefix, rule.local, tag, o.text, c.items);
    if inner.Some? {
      var read := AssignAll(rules.attributes, Blank(rules).attributes, P.Resolved(scopes, Decoded(tag)));
      var f := Frame(Some(Blank(rules).(attributes := Defaults(rules.attributes, read))), "", Some(rule.rules), Some(k));
      st1 := P.State(scopes, st.frames + [f]);
      InnerStarts(g, st, prefix, rule.local, tag, o.text, c.items);
      assert P.Step(g, st, TokenOf(Open(prefix, rule.local, tag, false))) == Some(st1);
      InnerParts(g, st, st1, prefix, rule, tag, o, c.items);
      st2 := P.State(scopes, st.frames + [f.(characters := o.text)]);
      KnowsInside(opts, st2, below, c.used);
      BlankFields(g, st2, rule, f, o);
      if !LiteralAttributes(rules.attributes, o.attributes) {
        AttributeLost(opts, used, rules.attributes, o.attributes, at, rule.ns, c.used, scopes);
      }
    }
  }

  /** An element read into its own slot is the written one only if everything below it has literal namespaces. */
  lemma {:induction false} ElementExact(g: P.Setting, opts: Options, used: seq<Binding>, o: Obj, rule: ElementRule, at: Place,
                                        st: P.State, all: seq<Binding>, r: nat, k: nat) returns (y: Obj)
    requires OptionsOk(opts) && SchemaOk(g.schema) && UsedOk(opts, used) && ElementOk(g.schema, rule) && Shaped(g.schema, rule.rules, o)
    requires OpenIn(g, st, r) && k < |g.schema[r].elements| && g.schema[r].elements[k] == rule && LiteralNs(rule.ns)
    requires ElementItems(g.schema, opts, used, o, rule, at).Some?
    requires Knows(opts, st, at, all, ElementItems(g.schema, opts, used, o, rule, at).value.used)
    ensures var x := Run(g, st, ElementItems(g.schema, opts, used, o, rule, at).value.items);
            x.Some? ==> Kept(st, x.value) && Top(x.value) == Attach(Top(st), k, y)
                        && (y == Filled(g.schema, rule.rules, o) ==> Literal(g.schema, rule.rules, o))
    decreases o
  {
    hide OptionsOk, UsedOk, ElementItems, ChildItems, AttributeItems, StackOk, Run, IsName, UriOk, AllShaped, DistinctAttributes,
         DistinctElements, AttributeOk, AllFilled, LiteralAttributes, LiteralNs, AllLiteral, P.Leave, Defaults, Knows, Kept, Ended, RulesOf,
         Attach, Filled, Literal;
    var rules := g.schema[rule.rules];
    var st1, st2 := ElementEnters(g, opts, used, o, rule, at, st, all, r, k);
    var a := AttributeItems(opts, used, rules.attributes, o.attributes).value;
    var below := Below(opts, at, rule.ns);
    var c := ChildItems(g.schema, opts, a.used, rules.elements, o.fields, below).value;
    RulesIn(g.schema, rule.rules, 0, rules.elements);
    assert rules in g.schema;
    AttributesGrow(opts, used, rules.attributes, o.attributes);
    y := o;
    var x := Run(g, st, ElementItems(g.schema, opts, used, o, rule, at).value.items);
    if x.Some? {
      ChildrenExactly(g, opts, a.used, rules.elements, o.fields, below, st2, c.used, rule.rules);
      var st3 := Run(g, st2, c.items).value;
      KeptText(st, st1, st2, st3, Top(st1), o.text);
      LeaveGrows(g, st, st1, st3);
      y := Ended(g.schema, Top(st3)).value;
      KeptAttached(st, k, y);
      EndedHas(g, st1, st3);
      OnlyLiteral(g, rule, o, y);
    }
  }

  lemma OnlyLiteral(g: P.Setting, rule: ElementRule, o: Obj, y: Obj)
    requires rule.rules < |g.schema| && Shaped(g.schema, rule.rules, o)
    requires var rules := g.schema[rule.rules];
             && (!LiteralAttributes(rules.attributes, o.attributes) ==> y.attributes != Defaults(rules.attributes, o.attributes))
             && (y.fields == AllFilled(g.schema, rules.elements, o.fields) ==> AllLiteral(g.schema, rules.elements, o.fields))
    ensures y == Filled(g.schema, rule.rules, o) ==> Literal(g.schema, rule.rules, o)
  {
    hide Defaults, AllFilled, AllShaped, LiteralAttributes, AllLiteral;
  }

  lemma InnerStarts(g: P.Setting, st: P.State, prefix: Option<string>, local: string, attrs: seq<RawAttr>, text: string, kids: seq<Item>)
    requires P.StateOk(g, st) && Inner(g, st, prefix, local, attrs, text, kids).Some?
    ensures P.Step(g, st, TokenOf(Open(prefix, local, attrs, false))).Some?
  {
    hide P.StateOk, Run, P.Step;
  }

  lemma EndedHas(g: P.Setting, st1: P.State, st3: P.State)
    requires Kept(st1, st3) && Top(st1).element.Some?
    ensures var y := Ended(g.schema, Top(st3));
            y.Some? && y.value.attributes == Top(st1).element.value.attributes && y.value.fields == FieldsOf(st3)
  {
  }

  lemma SlotIs(g: P.Setting, st: P.State, rule: ElementRule, r: nat, k: nat)
    requires SchemaOk(g.schema) && OpenIn(g, st, r) && k < |g.schema[r].elements| && g.schema[r].elements[k] == rule && LiteralNs(rule.ns)
    ensures RulesOf(g.schema, Top(st)) == g.schema[r]
    ensures FindElement(g.schema[r].elements, RuleKey(rule.local, ReadNs(rule.ns))) == Some(k)
  {
    hide RuleKey, ReadNs, ElementOk, AttributeOk, DistinctElements, DistinctAttributes, P.StateOk, LiteralNs, FindElement;
    assert g.schema[r] in g.schema;
    LiteralRead(rule.ns);
    ElementKeyFinds(g.schema[r].elements, k);
  }

  lemma KnowsInside(opts: Options, st: P.State, below: Place, used: seq<Binding>)
    requires below.depth > 0 && st.scopes != [] && st.scopes[|st.scopes| - 1].default == ReadNs(below.xmlns) && Binds(st.scopes, used)
    ensures Knows(opts, st, below, used, used)
  {
  }

  lemma BlankFields(g: P.Setting, st: P.State, rule: ElementRule, f: Frame, o: Obj)
    requires rule.rules < |g.schema| && P.StateOk(g, st) && st.frames != [] && Top(st) == f.(characters := o.text)
    requires f.rules == Some(rule.rules) && f.element.Some? && f.element.value.fields == Blank(g.schema[rule.rules]).fields
    ensures OpenIn(g, st, rule.rules) && forall i :: 0 <= i < |FieldsOf(st)| ==> FieldsOf(st)[i] == Field([])
  {
    hide P.StateOk;
  }

  lemma {:induction false} InnerParts(g: P.Setting, st: P.State, st1: P.State, prefix: Option<string>, rule: ElementRule, tag: seq<RawAttr>,
                                      o: Obj, kids: seq<Item>)
    requires P.StateOk(g, st) && P.StateOk(g, st1) && P.Step(g, st, TokenOf(Open(prefix, rule.local, tag, false))) == Some(st1)
    requires rule.rules < |g.schema| && Shaped(g.schema, rule.rules, o) && st1.frames == st.frames + [Top(st1)]
    requires Top(st1).rules == Some(rule.rules) && Top(st1).characters == ""
    ensures var st2 := P.State(st1.scopes, st.frames + [Top(st1).(characters := o.text)]);
            P.StateOk(g, st2) && Inner(g, st, prefix, rule.local, tag, o.text, kids) == Run(g, st2, kids)
  {
    hide P.StateOk, Run, P.Step, TextItems, AllShaped;
    TextRun(g, st1, o.text, "");
    assert "" + o.text == o.text;
    assert (st.frames + [Top(st1)])[..|st.frames|] == st.frames;
    assert WithTop(st1, Top(st1).(characters := o.text)) == P.State(st1.scopes, st.frames + [Top(st1).(characters := o.text)]);
  }

  lemma KeptText(st: P.State, st1: P.State, st2: P.State, st3: P.State, f: Frame, text: string)
    requires st1.frames == st.frames + [f] && st2 == P.State(st1.scopes, st.frames + [f.(characters := text)]) && Kept(st2, st3)
    ensures Kept(st1, st3) && st1.frames[..|st1.frames| - 1] == st.frames
  {
    assert st2.frames[..|st2.frames| - 1] == st.frames;
  }

  /** The elements of one rule, read into their own slot. */
  lemma {:induction false} ListExact(g: P.Setting, opts: Options, used: seq<Binding>, rule: ElementRule, items: seq<Obj>, at: Place,
                                     st: P.State, all: seq<Binding>, r: nat, k: nat)
    requires OptionsOk(opts) && SchemaOk(g.schema) && UsedOk(opts, used) && ElementOk(g.schema, rule) && ListShaped(g.schema, rule.rules, items)
    requires OpenIn(g, st, r) && k < |g.schema[r].elements| && g.schema[r].elements[k] == rule && (items != [] ==> LiteralNs(rule.ns))
    requires ListItems(g.schema, opts, used, rule, items, at).Some?
    requires Knows(opts, st, at, all, ListItems(g.schema, opts, used, rule, items, at).value.used)
    ensures var x := Run(g, st, ListItems(g.schema, opts, used, rule, items, at).value.items);
            x.Some? ==> Kept(st, x.value) && ListRead(g.schema, rule.rules, items, FieldsOf(st), FieldsOf(x.value), k)
    decreases items
  {
    hide OptionsOk, UsedOk, ElementItems, Shaped, Led, P.StateOk, Run, Knows, SchemaOk, LiteralNs, IsName, Filled, Literal, ListRead, Kept;
    if items == [] {
      RunNone(g, st);
      FramesThere(g, st);
      KeptItself(st);
      NothingRead(g.schema, rule.rules, FieldsOf(st), k);
    } else {
      FramesThere(g, st);
      ListFirst(g, opts, used, rule, items, at, st, all);
      var w := ElementItems(g.schema, opts, used, items[0], rule, at).value;
      var c := ListItems(g.schema, opts, w.used, rule, items[1..], at).value;
      RunLed(g, st, opts.newline, w.items);
      RunAppend(g, st, Led(opts.newline, w.items), c.items);
      var y := ElementExact(g, opts, used, items[0], rule, at, st, all, r, k);
      var x := Run(g, st, w.items);
      if x.Some? {
        OpenKept(g, st, x.value, r);
        KnowsKept(opts, st, x.value, at, all, c.used);
        ListExact(g, opts, w.used, rule, items[1..], at, x.value, all, r, k);
        var z := Run(g, x.value, c.items);
        if z.Some? {
          KeptJoins(st, x.value, z.value);
          KeptFields(st, x.value);
          KeptFields(x.value, z.value);
          OneMoreRead(g.schema, rule.rules, items, FieldsOf(st), FieldsOf(x.value), FieldsOf(z.value), k, y);
        }
      }
    }
  }

  /** Only slot `k` has got more, and what it got are the written elements only if all of those are literal. */
  ghost predicate ListRead(schema: Schema, r: nat, items: seq<Obj>, a: seq<Field>, b: seq<Field>, k: nat)
    requires r < |schema| && ListShaped(schema, r, items)
  {
    && |a| == |b| && k < |a| && (forall i :: 0 <= i < |a| && i != k ==> b[i] == a[i])
    && a[k].items <= b[k].items
    && (b[k].items[|a[k].items|..] == ListFilled(schema, r, items) ==> ListLiteral(schema, r, items))
  }

  lemma NothingRead(schema: Schema, r: nat, a: seq<Field>, k: nat)
    requires r < |schema| && k < |a|
    ensures ListRead(schema, r, [], a, a, k)
  {
  }

  lemma OneMoreRead(schema: Schema, r: nat, items: seq<Obj>, a: seq<Field>, b: seq<Field>, c: seq<Field>, k: nat, y: Obj)
    requires r < |schema| && items != [] && ListShaped(schema, r, items) && k < |a|
    requires b == a[k := Field(a[k].items + [y])] && (y == Filled(schema, r, items[0]) ==> Literal(schema, r, items[0]))
    requires ListRead(schema, r, items[1..], b, c, k)
    ensures ListRead(schema, r, items, a, c, k)
  {
    hide Filled, Literal, Shaped;
    var n := |a[k].items|;
    var got, rest := c[k].items[n..], c[k].items[n + 1..];
    assert b[k].items == a[k].items + [y];
    assert c[k].items[..n + 1] == a[k].items + [y];
    assert got == [y] + rest;
    if got == ListFilled(schema, r, items) {
      assert got[0] == y && got[1..] == rest;
      assert ListFilled(schema, r, items)[1..] == ListFilled(schema, r, items[1..]);
    }
  }

  /** Children all of whose namespaces are literal, from field `j` on. */
  lemma {:induction false} ChildrenExact(g: P.Setting, opts: Options, used: seq<Binding>, rules: seq<ElementRule>, fs: seq<Field>, at: Place,
                                         st: P.State, all: seq<Binding>, r: nat, j: nat)
    requires OptionsOk(opts) && SchemaOk(g.schema) && UsedOk(opts, used) && AllShaped(g.schema, rules, fs) && |rules| == |fs|
    requires OpenIn(g, st, r) && j <= |g.schema[r].elements| && rules == g.schema[r].elements[j..] && Placed(rules, fs)
    requires forall i :: j <= i < |FieldsOf(st)| ==> FieldsOf(st)[i] == Field([])
    requires ChildItems(g.schema, opts, used, rules, fs, at).Some?
    requires Knows(opts, st, at, all, ChildItems(g.schema, opts, used, rules, fs, at).value.used)
    ensures var x := Run(g, st, ChildItems(g.schema, opts, used, rules, fs, at).value.items);
            x.Some? ==> Kept(st, x.value) && FieldsOf(x.value)[..j] == FieldsOf(st)[..j]
                        && (FieldsOf(x.value)[j..] == AllFilled(g.schema, rules, fs) ==> AllLiteral(g.schema, rules, fs))
    decreases fs, 0
  {
    hide OptionsOk, UsedOk, ListItems, ListShaped, P.StateOk, Run, Knows, SchemaOk, LiteralNs, IsName, ListFilled, ListLiteral, Kept, ListRead,
         ElementOk, Counted;
    RulesIn(g.schema, r, j, rules);
    if fs == [] {
      RunNone(g, st);
      FramesThere(g, st);
      KeptItself(st);
    } else {
      ChildrenFirst(g, opts, used, rules, fs, at, st, all);
      var rule, items := rules[0], fs[0].items;
      var w := ListItems(g.schema, opts, used, rule, items, at).value;
      var c := ChildItems(g.schema, opts, w.used, rules[1..], fs[1..], at).value;
      RunAppend(g, st, w.items, c.items);
      ListExact(g, opts, used, rule, items, at, st, all, r, j);
      var x := Run(g, st, w.items);
      if x.Some? {
        OpenKept(g, st, x.value, r);
        KnowsKept(opts, st, x.value, at, all, c.used);
        PlacedRest(rules, fs);
        FramesThere(g, st);
        KeptFields(st, x.value);
        FieldRead(g.schema, rule.rules, items, FieldsOf(st), FieldsOf(x.value), j);
        ChildrenExact(g, opts, w.used, rules[1..], fs[1..], at, x.value, all, r, j + 1);
        var z := Run(g, x.value, c.items);
        if z.Some? {
          KeptJoins(st, x.value, z.value);
          KeptFields(x.value, z.value);
          FieldsExact(g.schema, rules, fs, FieldsOf(st), FieldsOf(x.value), FieldsOf(z.value), j);
        }
      }
    }
  }

  lemma KeptFields(a: P.State, b: P.State)
    requires Kept(a, b) && Top(a).element.Some?
    ensures b.frames != [] && Top(b).element.Some? && |FieldsOf(b)| == |FieldsOf(a)|
  {
  }

  lemma PlacedRest(rules: seq<ElementRule>, fs: seq<Field>)
    requires |rules| == |fs| && fs != [] && Placed(rules, fs)
    ensures Placed(rules[1..], fs[1..]) && (fs[0].items != [] ==> LiteralNs(rules[0].ns))
  {
    hide LiteralNs;
    assert forall i :: 0 <= i < |fs| - 1 ==> fs[1..][i] == fs[i + 1] && rules[1..][i] == rules[i + 1];
  }

  lemma FieldRead(schema: Schema, r: nat, items: seq<Obj>, a: seq<Field>, b: seq<Field>, j: nat)
    requires r < |schema| && ListShaped(schema, r, items) && ListRead(schema, r, items, a, b, j)
    requires forall i :: j <= i < |a| ==> a[i] == Field([])
    ensures |b| == |a| && j < |a| && b[..j] == a[..j] && (forall i :: j + 1 <= i < |b| ==> b[i] == Field([]))
    ensures b[j].items == ListFilled(schema, r, items) ==> ListLiteral(schema, r, items)
  {
    hide ListFilled, ListLiteral, ListShaped;
    assert b[j].items[0..] == b[j].items;
  }

  lemma FieldsExact(schema: Schema, rules: seq<ElementRule>, fs: seq<Field>, a: seq<Field>, b: seq<Field>, c: seq<Field>, j: nat)
    requires AllShaped(schema, rules, fs) && fs != [] && Placed(rules, fs) && j < |a| == |b| == |c|
    requires b[..j] == a[..j] && c[..j + 1] == b[..j + 1]
    requires b[j].items == ListFilled(schema, rules[0].rules, fs[0].items) ==> ListLiteral(schema, rules[0].rules, fs[0].items)
    requires c[j + 1..] == AllFilled(schema, rules[1..], fs[1..]) ==> AllLiteral(schema, rules[1..], fs[1..])
    ensures c[..j] == a[..j] && (c[j..] == AllFilled(schema, rules, fs) ==> AllLiteral(schema, rules, fs))
  {
    hide ListFilled, ListLiteral, ListShaped, LiteralNs;
    assert c[..j] == c[..j + 1][..j] && b[..j] == b[..j + 1][..j];
    assert c[j] == c[..j + 1][j] && b[j] == b[..j + 1][j];
    PlacedRest(rules, fs);
    if c[j..] == AllFilled(schema, rules, fs) {
      var all := AllFilled(schema, rules, fs);
      assert all[1..] == AllFilled(schema, rules[1..], fs[1..]);
      assert c[j..][0] == c[j] && c[j..][1..] == c[j + 1..];
    }
  }

  /** All children of an element: what is read are the written ones only if all namespaces are literal. */
  lemma {:induction false} ChildrenExactly(g: P.Setting, opts: Options, used: seq<Binding>, rules: seq<ElementRule>, fs: seq<Field>,
                                           at: Place, st: P.State, all: seq<Binding>, r: nat)
    requires OptionsOk(opts) && SchemaOk(g.schema) && UsedOk(opts, used) && AllShaped(g.schema, rules, fs)
    requires OpenIn(g, st, r) && rules == g.schema[r].elements
    requires forall i :: 0 <= i < |FieldsOf(st)| ==> FieldsOf(st)[i] == Field([])
    requires ChildItems(g.schema, opts, used, rules, fs, at).Some?
    requires Knows(opts, st, at, all, ChildItems(g.schema, opts, used, rules, fs, at).value.used)
    ensures var x := Run(g, st, ChildItems(g.schema, opts, used, rules, fs, at).value.items);
            x.Some? ==> Kept(st, x.value)
                        && (FieldsOf(x.value) == AllFilled(g.schema, rules, fs) ==> AllLiteral(g.schema, rules, fs))
    decreases fs, 1
  {
    hide OptionsOk, UsedOk, ChildItems, P.StateOk, Run, Knows, SchemaOk, LiteralNs, IsName, ListFilled, ListLiteral, Kept, AllLiteral, AllFilled,
         ElementOk, Weight, NoneFor, ListShaped;
    assert rules[0..] == rules;
    RulesIn(g.schema, r, 0, rules);
    assert |rules| == |fs|;
    if Placed(rules, fs) {
      ChildrenExact(g, opts, used, rules, fs, at, st, all, r, 0);
      var x := Run(g, st, ChildItems(g.schema, opts, used, rules, fs, at).value.items);
      if x.Some? {
        KeptFields(st, x.value);
        assert FieldsOf(x.value)[0..] == FieldsOf(x.value);
      }
    } else {
      var k := LongestChild(rules, fs);
      SlotMissed(g, r, rules, fs, k);
      ChildrenMiss(g, opts, used, rules, fs, at, st, all, r, k);
      FilledLengths(g.schema, rules, fs);
    }
  }

  // ------------------------------------------------------------------ the round trip, exactly

  /** A readable document is not read as the object it was written from when a namespace in it is not read as written. */
  lemma {:induction false} NotRestored(schema: Schema, validate: bool, opts: Options, root: nat, o: Obj)
    requires SchemaOk(schema) && OptionsOk(opts) && root < |schema| && Shaped(schema, root, o)
    requires Document(schema, opts, [], root, o).Some?
    requires Readable(schema, opts, root, o) && !AllLiteral(schema, schema[root].elements, o.fields)
    ensures P.Parsed(P.Setting(schema, validate), root, Document(schema, opts, [], root, o).value) != Restored(schema, root, o)
  {
    hide OptionsOk, ChildItems, StackOk, Run, AllShaped, AllFilled, Defaults, Document, AllPlain, Apart, AllLiteral, Kept, SchemaOk, P.Parsed,
         Validates;
    var g := P.Setting(schema, validate);
    DocumentRuns(schema, validate, opts, root, o);
    var w := ChildItems(schema, opts, [], schema[root].elements, o.fields, TOP).value;
    var st := P.State([P.DOCUMENT], [RootFrame(schema, root)]);
    NothingUsed(opts);
    ChildrenExactly(g, opts, [], schema[root].elements, o.fields, TOP, st, [], root);
    var r := Run(g, st, w.items);
    if r.Some? {
      KeptFields(st, r.value);
      StateFrames(g, r.value);
    }
  }

  /** Every document the writer writes. It is refused when an attribute is written in it with a name that every object has, or
      when two of the namespaces of its attributes have the same prefix. It is read back as the object it was written from,
      defaults filled in, exactly when neither is the case and every namespace written in it is read as it is written. */
  lemma {:induction false} RoundTripIff(schema: Schema, validate: bool, opts: Options, root: nat, o: Obj)
    requires SchemaOk(schema) && OptionsOk(opts) && root < |schema| && Shaped(schema, root, o)
    requires Document(schema, opts, [], root, o).Some?
    ensures var r := P.Parsed(P.Setting(schema, validate), root, Document(schema, opts, [], root, o).value);
            var plain, apart := AllPlain(schema, schema[root].elements, o.fields), Apart(Bindings(schema, opts, root, o));
            && (!plain || !apart ==> r == None)
            && (r == Restored(schema, root, o) <==> plain && apart && AllLiteral(schema, schema[root].elements, o.fields))
  {
    hide OptionsOk, AllShaped, Document, AllPlain, Apart, AllLiteral, SchemaOk, P.Parsed, Bindings;
    if !Readable(schema, opts, root, o) {
      UnreadableRefused(schema, validate, opts, root, o);
    } else if AllLiteral(schema, schema[root].elements, o.fields) {
      RoundTrip(schema, validate, opts, root, o);
    } else {
      NotRestored(schema, validate, opts, root, o);
    }
  }

  // ------------------------------------------------------------------ inputs that fail

  /** An element `a` with attributes x in urn:a and y in urn:b. */
  const TWO_NAMESPACES: Schema := [RuleSet([], [ElementRule("a", None, false, 0, Some(1), 1)], false),
                                   RuleSet([AttributeRule("x", Some("urn:a"), false, None), AttributeRule("y", Some("urn:b"), false, None)],
                                           [], false)]

  /** The map gives urn:b the prefix ns_1, which the writer makes up for urn:a: both are declared under one name, and the
      parser refuses the document. */
  lemma ClashRefused(validate: bool, opts: Options, x: string, y: string)
    requires OptionsOk(opts) && opts.prefixMap == map["urn:b" := "ns_1"]
    ensures var o := Obj([], "", [Field([Obj([Some(x), Some(y)], "", [])])]);
            && SchemaOk(TWO_NAMESPACES) && Shaped(TWO_NAMESPACES, 0, o) && Document(TWO_NAMESPACES, opts, [], 0, o).Some?
            && AllPlain(TWO_NAMESPACES, TWO_NAMESPACES[0].elements, o.fields)
            && P.Parsed(P.Setting(TWO_NAMESPACES, validate), 0, Document(TWO_NAMESPACES, opts, [], 0, o).value) == None
  {
    var inner := Obj([Some(x), Some(y)], "", []);
    var o := Obj([], "", [Field([inner])]);
    TwoNamespacesOk();
    ClashWritten(opts, inner, x, y);
    hide OptionsOk, Document, P.Parsed, SchemaOk, AllPlain, Apart, Bindings, TWO_NAMESPACES;
    UnreadableRefused(TWO_NAMESPACES, validate, opts, 0, o);
  }

  lemma TwoNamespacesOk()
    ensures SchemaOk(TWO_NAMESPACES)
  {
    LetterIsName();
    XYAreNames();
    hide IsName;
    var e, r := TWO_NAMESPACES[0].elements[0], TWO_NAMESPACES[1];
    assert RulesOk(TWO_NAMESPACES, TWO_NAMESPACES[0]);
    assert AttributeOk(r.attributes[0]) && AttributeOk(r.attributes[1]);
    KeysApart();
    assert DistinctAttributes(r.attributes);
    assert RulesOk(TWO_NAMESPACES, r);
  }

  lemma XYAreNames()
    ensures IsName("x") && IsName("y")
  {
  }

  lemma KeysApart()
    ensures RuleKey("x", Some("urn:a")) != RuleKey("y", Some("urn:b"))
  {
    assert RuleKey("x", Some("urn:a"))[6] == 'x' && RuleKey("y", Some("urn:b"))[6] == 'y';
  }

  /** What the writer makes of it. */
  lemma ClashWritten(opts: Options, inner: Obj, x: string, y: string)
    requires opts.prefixMap == map["urn:b" := "ns_1"] && inner == Obj([Some(x), Some(y)], "", [])
    ensures var o := Obj([], "", [Field([inner])]);
            && Shaped(TWO_NAMESPACES, 0, o) && Document(TWO_NAMESPACES, opts, [], 0, o).Some? && !Apart(Bindings(TWO_NAMESPACES, opts, 0, o))
            && AllPlain(TWO_NAMESPACES, TWO_NAMESPACES[0].elements, o.fields)
  {
    var schema := TWO_NAMESPACES;
    var o := Obj([], "", [Field([inner])]);
    var rule, rules := schema[0].elements[0], schema[1].attributes;
    assert Shaped(schema, 1, inner);
    assert [inner][1..] == [];
    assert ListShaped(schema, 1, [inner]);
    assert o.fields[1..] == [] && schema[0].elements[1..] == [];
    assert AllShaped(schema, schema[0].elements, o.fields);
    assert PlainAttributes(rules, inner.attributes);
    assert Plain(schema, 1, inner);
    assert ListPlain(schema, 1, [inner]);
    ClashAttributes(opts, x, y);
    var used := [Binding("urn:a", "ns_1"), Binding("urn:b", "ns_1")];
    hide Wrap, Led, AttributeItems, Named, PrefixFor, Apart;
    assert ElementItems(schema, opts, [], inner, rule, TOP).Some?;
    assert AttributeItems(opts, [], rules, inner.attributes).value.used == used;
    assert ChildItems(schema, opts, used, [], [], Below(opts, TOP, None)) == Some(Written([], used));
    assert ScopeOf(TOP.xmlns, rule.ns) == rule.ns;
    var e := ElementItems(schema, opts, [], inner, rule, TOP).value;
    assert e.used == used;
    assert ListItems(schema, opts, e.used, rule, [], TOP).Some?;
    var w := ListItems(schema, opts, [], rule, [inner], TOP);
    assert w.Some? && w.value.used == used;
    assert ChildItems(schema, opts, w.value.used, [], [], TOP) == Some(Written([], used));
    assert ChildItems(schema, opts, [], schema[0].elements, o.fields, TOP).Some?;
    assert Bindings(schema, opts, 0, o) == used;
    SamePrefix(used);
  }

  lemma SamePrefix(used: seq<Binding>)
    requires |used| == 2 && used[0].prefix == used[1].prefix
    ensures !Apart(used)
  {
  }

  lemma ClashAttributes(opts: Options, x: string, y: string)
    requires opts.prefixMap == map["urn:b" := "ns_1"]
    ensures var a := AttributeItems(opts, [], TWO_NAMESPACES[1].attributes, [Some(x), Some(y)]);
            a.Some? && a.value.used == [Binding("urn:a", "ns_1"), Binding("urn:b", "ns_1")]
  {
    hide EncodeEntities;
    var rules, values := TWO_NAMESPACES[1].attributes, [Some(x), Some(y)];
    var one, both := [Binding("urn:a", "ns_1")], [Binding("urn:a", "ns_1"), Binding("urn:b", "ns_1")];
    assert Base36(1) == "1";
    assert "ns_" + "1" == "ns_1";
    Different();
    assert Named(opts, [], Some("urn:a")) == one;
    assert one[1..] == [];
    assert Named(opts, one, Some("urn:b")) == both;
    assert rules[1..] == [rules[1]] && values[1..] == [Some(y)] && rules[1..][1..] == [] && values[1..][1..] == [];
    assert AttributeItems(opts, both, [], []) == Some(Attrs([], both));
    assert AttributeItems(opts, one, rules[1..], values[1..]).Some? && AttributeItems(opts, one, rules[1..], values[1..]).value.used == both;
  }

  lemma Different()
    ensures "urn:a" != "urn:b"
  {
    assert "urn:a"[4] != "urn:b"[4];
  }

  /** One optional element `a` in a namespace. */
  function OneNamespace(uri: string): Schema
  {
    [RuleSet([], [ElementRule("a", Some(uri), false, 0, Some(1), 1)], false), RuleSet([], [], false)]
  }

  /** Such an element comes back exactly when its namespace is read as it is written. Otherwise the document is accepted all the
      same, and the element is gone. */
  lemma NamespaceKeptIff(validate: bool, opts: Options, uri: string)
    requires OptionsOk(opts) && UriOk(uri)
    ensures var schema := OneNamespace(uri);
            var o := Obj([], "", [Field([Obj([], "", [])])]);
            && SchemaOk(schema) && Shaped(schema, 0, o) && Document(schema, opts, [], 0, o).Some?
            && P.Parsed(P.Setting(schema, validate), 0, Document(schema, opts, [], 0, o).value)
               == if DecodeEntities(uri) == uri then Restored(schema, 0, o) else Some(Some(Obj([], "", [Field([])])))
  {
    var schema := OneNamespace(uri);
    var o := Obj([], "", [Field([Obj([], "", [])])]);
    OneNamespaceOk(uri);
    OneWritten(uri, opts);
    hide OptionsOk, Document, P.Parsed, SchemaOk, AllPlain, Apart, Bindings, OneNamespace, DecodeEntities, AllLiteral, Shaped;
    if DecodeEntities(uri) == uri {
      RoundTrip(schema, validate, opts, 0, o);
    } else {
      ElementGone(validate, opts, uri);
    }
  }

  lemma OneNamespaceOk(uri: string)
    requires UriOk(uri)
    ensures SchemaOk(OneNamespace(uri))
  {
    LetterIsName();
    hide IsName, UriOk;
    var schema := OneNamespace(uri);
    assert ElementOk(schema, schema[0].elements[0]);
    assert RulesOk(schema, schema[0]) && RulesOk(schema, schema[1]);
  }

  lemma OneWritten(uri: string, opts: Options)
    requires UriOk(uri)
    ensures var schema := OneNamespace(uri);
            var o := Obj([], "", [Field([Obj([], "", [])])]);
            && Shaped(schema, 0, o) && Document(schema, opts, [], 0, o).Some? && Readable(schema, opts, 0, o)
            && (AllLiteral(schema, schema[0].elements, o.fields) <==> DecodeEntities(uri) == uri)
            && ChildItems(schema, opts, [], schema[0].elements, o.fields, TOP)
               == Some(Written([Item(opts.newline, Open(None, "a", [RawAttr(None, "xmlns", uri)], true))], []))
  {
    hide DecodeEntities, ChildItems, AllPlain, AllLiteral, AllShaped;
    OneShaped(uri);
    OneItems(uri, opts);
  }

  lemma OneShaped(uri: string)
    ensures var schema := OneNamespace(uri);
            var o := Obj([], "", [Field([Obj([], "", [])])]);
            && AllShaped(schema, schema[0].elements, o.fields) && Shaped(schema, 0, o)
            && AllPlain(schema, schema[0].elements, o.fields)
            && (AllLiteral(schema, schema[0].elements, o.fields) <==> DecodeEntities(uri) == uri)
  {
    hide DecodeEntities;
    var schema := OneNamespace(uri);
    var inner := Obj([], "", []);
    var o := Obj([], "", [Field([inner])]);
    assert Shaped(schema, 1, inner);
    assert [inner][1..] == [];
    assert ListShaped(schema, 1, [inner]);
    assert o.fields[1..] == [] && schema[0].elements[1..] == [];
    assert AllShaped(schema, schema[0].elements, o.fields);
    assert Plain(schema, 1, inner) && Literal(schema, 1, inner);
    assert ListPlain(schema, 1, []) && ListLiteral(schema, 1, []);
    assert ListPlain(schema, 1, [inner]);
    assert ListLiteral(schema, 1, [inner]);
  }

  lemma OneItems(uri: string, opts: Options)
    requires UriOk(uri)
    requires var o := Obj([], "", [Field([Obj([], "", [])])]);
             AllShaped(OneNamespace(uri), OneNamespace(uri)[0].elements, o.fields) && Shaped(OneNamespace(uri), 0, o)
    ensures var schema := OneNamespace(uri);
            var o := Obj([], "", [Field([Obj([], "", [])])]);
            ChildItems(schema, opts, [], schema[0].elements, o.fields, TOP)
            == Some(Written([Item(opts.newline, Open(None, "a", [RawAttr(None, "xmlns", uri)], true))], []))
  {
    var schema := OneNamespace(uri);
    var inner := Obj([], "", []);
    var o := Obj([], "", [Field([inner])]);
    var rule := schema[0].elements[0];
    assert Shaped(schema, 1, inner);
    assert [inner][1..] == [];
    assert ListShaped(schema, 1, [inner]);
    assert o.fields[1..] == [] && schema[0].elements[1..] == [];
    var tag := [RawAttr(None, "xmlns", uri)];
    assert TagAttrs(TOP, rule.ns, [], []) == tag + ([] + []);
    assert tag + ([] + []) == tag;
    var item := Item("", Open(None, "a", tag, true));
    assert ElementItems(schema, opts, [], inner, rule, TOP) == Some(Written([item], []));
    var led := Item(opts.newline, Open(None, "a", tag, true));
    assert opts.newline + "" == opts.newline;
    assert Led(opts.newline, [item]) == [led];
    assert ListItems(schema, opts, [], rule, [], TOP) == Some(Written([], []));
    assert [led] + [] == [led];
    assert ListItems(schema, opts, [], rule, [inner], TOP) == Some(Written([led], []));
    assert ChildItems(schema, opts, [], [], [], TOP) == Some(Written([], []));
    assert ChildItems(schema, opts, [], schema[0].elements, o.fields, TOP) == Some(Written([led], []));
  }

  /** The parser finds no rule for the element, and drops it. */
  lemma {:induction false} ElementGone(validate: bool, opts: Options, uri: string)
    requires OptionsOk(opts) && UriOk(uri) && DecodeEntities(uri) != uri
    ensures var schema := OneNamespace(uri);
            var o := Obj([], "", [Field([Obj([], "", [])])]);
            Shaped(schema, 0, o) && Document(schema, opts, [], 0, o).Some? &&
            P.Parsed(P.Setting(schema, validate), 0, Document(schema, opts, [], 0, o).value) == Some(Some(Obj([], "", [Field([])])))
  {
    var schema := OneNamespace(uri);
    var o := Obj([], "", [Field([Obj([], "", [])])]);
    var g := P.Setting(schema, validate);
    var st := P.State([P.DOCUMENT], [RootFrame(schema, 0)]);
    var item := Item(opts.newline, Open(None, "a", [RawAttr(None, "xmlns", uri)], true));
    OneNamespaceOk(uri);
    OneWritten(uri, opts);
    hide OptionsOk, Document, P.Parsed, SchemaOk, AllPlain, Apart, Bindings, DecodeEntities, AllLiteral, Shaped, Run, P.StateOk, StackOk,
         P.Step, TokenOf;
    DocumentRuns(schema, validate, opts, 0, o);
    RunOne(g, st, item);
    StepDrops(g, st, uri);
    StateFrames(g, st);
    RootStays(schema, validate, uri);
  }

  lemma RootStays(schema: Schema, validate: bool, uri: string)
    requires schema == OneNamespace(uri) && StackOk(schema, [RootFrame(schema, 0)])
    ensures Finished(schema, validate, [RootFrame(schema, 0)]) == Some(Some(Obj([], "", [Field([])])))
  {
    assert Blank(schema[0]).attributes == [] && Blank(schema[0]).fields == [Field([])];
    assert Cardinal(schema[0].elements, [Field([])]);
  }

  lemma {:induction false} StepDrops(g: P.Setting, st: P.State, uri: string)
    requires UriOk(uri) && DecodeEntities(uri) != uri && g.schema == OneNamespace(uri)
    requires st == P.State([P.DOCUMENT], [RootFrame(g.schema, 0)]) && P.StateOk(g, st)
    ensures P.Step(g, st, TokenOf(Open(None, "a", [RawAttr(None, "xmlns", uri)], true))) == Some(st)
  {
    hide StackOk, RuleKey, AssignAll, Defaults, Missing, UriOk, DecodeEntities, P.Step, TokenOf, Decoded, P.DefaultNs, P.Prefixes, P.Resolved,
         P.Name.Text;
    var tag := [RawAttr(None, "xmlns", uri)];
    OpenIs(g, st, None, "a", tag);
    DefaultRead(uri);
    var scopes := P.Entered(st.scopes, P.Name(None, "a"), Decoded(tag));
    assert P.NamespaceOf(scopes, None) == Some(DecodeEntities(uri));
    NoRule(g.schema, uri);
    assert RulesOf(g.schema, Top(st)) == g.schema[0];
    var frames := st.frames + [Frame(None, "", None, None)];
    assert frames[..1] == st.frames;
    assert Opened(g.schema, g.validate, st.frames, "a", Some(DecodeEntities(uri)), P.Resolved(scopes, Decoded(tag))) == Some(frames);
    assert Closed(g.schema, g.validate, frames) == Some(st.frames) by { assert StackOk(g.schema, frames); }
    assert scopes[..1] == st.scopes;
  }

  lemma DefaultRead(uri: string)
    requires UriOk(uri)
    ensures P.DefaultNs(Decoded([RawAttr(None, "xmlns", uri)]), None) == Some(DecodeEntities(uri))
  {
    hide DecodeEntities;
    UriRead(Some(uri));
    assert [RawAttr(None, "xmlns", uri)][1..] == [];
    var a := P.RawAttribute(P.Name(None, "xmlns"), DecodeEntities(uri));
    assert Decoded([RawAttr(None, "xmlns", uri)]) == [a];
    assert [a][..0] == [];
  }

  lemma NoRule(schema: Schema, uri: string)
    requires schema == OneNamespace(uri) && UriOk(uri) && DecodeEntities(uri) != uri
    ensures FindElement(schema[0].elements, RuleKey("a", Some(DecodeEntities(uri)))) == None
  {
    hide DecodeEntities, RuleKey;
    FoundElement(schema[0].elements, RuleKey("a", Some(DecodeEntities(uri))));
    if RuleKey("a", Some(uri)) == RuleKey("a", Some(DecodeEntities(uri))) {
      KeyInjective("a", Some(uri), "a", Some(DecodeEntities(uri)));
    }
  }

  /** A namespace that holds an entity, and one that only looks a little like it. */
  lemma EntityInNamespace()
    ensures UriOk("urn:a&lt;b") && DecodeEntities("urn:a&lt;b") != "urn:a&lt;b"
    ensures UriOk("urn?a&b") && DecodeEntities("urn?a&b") == "urn?a&b"
  {
    EntityDecoded();
    QueryStays();
  }

  lemma {:induction false} Ahead(front: string, s: string)
    requires '&' !in front
    ensures DecodeEntities(front + s) == front + DecodeEntities(s)
    decreases |front|
  {
    hide Expand, IsNamed, IsDecimal, IsHexadecimal;
    if front == "" {
      assert front + s == s;
    } else {
      assert (front + s)[1..] == front[1..] + s;
      Ahead(front[1..], s);
    }
  }

  lemma EntityDecoded()
    ensures DecodeEntities("urn:a&lt;b") == "urn:a<b"
  {
    hide Expand, IsNamed, IsDecimal, IsHexadecimal, DecodeEntities;
    Names("lt");
    DecodeNamed("lt", "b", '<');
    NothingToDecode("b");
    var s := "&" + "lt" + ";" + "b";
    Ahead("urn:a", s);
    assert "urn:a&lt;b" == "urn:a" + s;
    assert "urn:a<b" == "urn:a" + (['<'] + "b");
  }

  lemma QueryStays()
    ensures DecodeEntities("urn?a&b") == "urn?a&b"
  {
    hide Expand, IsNamed, IsDecimal, IsHexadecimal;
    var s := "&b";
    assert forall j :: 1 <= j < 2 ==> NotSemicolon(s[j]);
    RunEndIs(s, 1, NotSemicolon, 2);
    assert s[1..] == "b";
    NothingToDecode("b");
    assert DecodeEntities(s) == s;
    Ahead("urn?a", s);
    assert "urn?a&b" == "urn?a" + s;
  }
}
