/** The writer and the parser undo each other: a document written by rules and parsed by the same rules gives the
    object back, with the defaults of absent attributes filled in. */
module XmlRoundTrip {
  import opened Wrappers
  import opened Strings
  import opened XmlText
  import opened XmlRules
  import opened XmlHandling
  import opened XmlWriting
  import opened XmlNames
  import opened XmlScanning
  import opened XmlTags
  import opened XmlScopes
  import P = XmlParsing

  // ------------------------------------------------------------------ everything the writer emits can be read

  lemma AppendIff(a: seq<Item>, b: seq<Item>)
    ensures ItemsLegible(a + b) <==> ItemsLegible(a) && ItemsLegible(b)
    ensures ItemsOk(a + b) <==> ItemsOk(a) && ItemsOk(b)
  {
    hide Printable, Legible, AllWhite;
    assert (forall i :: i in a ==> i in a + b) && (forall i :: i in b ==> i in a + b);
  }

  lemma OneIff(i: Item)
    ensures ItemsLegible([i]) <==> AllWhite(i.space) && Legible(i.markup)
    ensures ItemsOk([i]) <==> AllWhite(i.space) && Printable(i.markup)
  {
    hide Printable, Legible, AllWhite;
    assert i in [i];
  }

  lemma WhiteBoth(a: string, b: string)
    requires AllWhite(a) && AllWhite(b)
    ensures AllWhite(a + b)
  {
    hide IsWhite;
  }

  lemma LedIff(lead: string, items: seq<Item>)
    requires ItemsLegible(items) && AllWhite(lead)
    ensures ItemsLegible(Led(lead, items)) && (ItemsOk(Led(lead, items)) <==> ItemsOk(items))
  {
    hide Printable, Legible, AllWhite, ItemsLegible, ItemsOk;
    if items != [] {
      var first := Item(lead + items[0].space, items[0].markup);
      assert items == [items[0]] + items[1..];
      AppendIff([items[0]], items[1..]);
      AppendIff([first], items[1..]);
      OneIff(items[0]);
      OneIff(first);
      WhiteBoth(lead, items[0].space);
    }
  }

  lemma {:induction false} SectionsOk(sections: seq<string>)
    requires forall t :: t in sections ==> !Holds(t)
    ensures ItemsOk(SectionItems(sections)) && ItemsLegible(SectionItems(sections))
  {
    hide Holds;
    if sections != [] {
      assert sections[0] in sections;
      SectionsOk(sections[1..]);
    }
  }

  lemma TextOk(text: string, lead: string)
    requires AllWhite(lead)
    ensures ItemsOk(TextItems(text, lead)) && ItemsLegible(TextItems(text, lead))
  {
    hide AllWhite, Holds, Split, Printable, Legible;
    if text != "" {
      SectionsAreText(text, "");
      SectionsOk(Sections(Split(text), ""));
      LedIff(lead, SectionItems(Sections(Split(text), "")));
    }
  }

  /** An element can be read exactly when its tag and its children can. */
  lemma WrapIff(opts: Options, indent: string, prefix: Option<string>, local: string, attrs: seq<RawAttr>, text: string, kids: seq<Item>)
    requires OptionsOk(opts) && AllWhite(indent) && NameOk(prefix, local) && AttrsPrintable(attrs) && ItemsLegible(kids)
    ensures var items := Wrap(opts, indent, prefix, local, attrs, text, kids);
            ItemsLegible(items) && (ItemsOk(items) <==> AttrsOk(attrs, INHERITED) && ItemsOk(kids))
  {
    hide AllWhite, NameOk, AttrsOk, AttrsPrintable, ItemsOk, ItemsLegible, TextItems;
    WhiteBoth(indent, opts.indent);
    WhiteBoth(opts.newline, indent + opts.indent);
    WhiteBoth(opts.newline, indent);
    NoSpace();
    TextOk(text, opts.newline + (indent + opts.indent));
    TextOk(text, "");
    OneIff(Item(indent, Open(prefix, local, attrs, false)));
    OneIff(Item(indent, Open(prefix, local, attrs, true)));
    OneIff(Item(opts.newline + indent, Close(prefix, local)));
    OneIff(Item("", Close(prefix, local)));
    NothingOk();
    var texts, end := TextItems(text, opts.newline + (indent + opts.indent)), [Item(opts.newline + indent, Close(prefix, local))];
    AppendIff(kids, end);
    AppendIff(texts, kids + end);
    AppendIff([Item(indent, Open(prefix, local, attrs, false))], texts + (kids + end));
    AppendIff(TextItems(text, ""), [Item("", Close(prefix, local))]);
    AppendIff([Item(indent, Open(prefix, local, attrs, false))], TextItems(text, "") + [Item("", Close(prefix, local))]);
  }

  lemma NoSpace()
    ensures AllWhite("")
  {
  }

  /** The prefix an element is written with. */
  function ElementPrefix(opts: Options, used: seq<Binding>, xmlns: Option<string>, ns: Option<string>): Option<string>
  {
    if ns == ScopeOf(xmlns, ns) then None else PrefixFor(opts, used, ns)
  }

  lemma ElementPrefixOk(opts: Options, used: seq<Binding>, at: Place, rule: ElementRule, schema: Schema)
    requires OptionsOk(opts) && UsedOk(opts, used) && ElementOk(schema, rule)
    ensures NameOk(ElementPrefix(opts, used, at.xmlns, rule.ns), rule.local)
  {
    hide OptionsOk, UsedOk, IsName, PrefixFor, Named;
    NamedGrows(opts, used, rule.ns);
    if rule.ns.Some? && rule.ns != ScopeOf(at.xmlns, rule.ns) {
      BindingOk(opts, Named(opts, used, rule.ns), Binding(rule.ns.value, PrefixFor(opts, used, rule.ns).value));
    }
  }

  /** What the writer emits for an element can be read back exactly when no attribute in it has an inherited name, as long
      as namespaces have different prefixes; a document element with clashing prefixes never can. */
  lemma {:induction false} ElementItemsIff(schema: Schema, opts: Options, used: seq<Binding>, o: Obj, rule: ElementRule, at: Place)
    requires OptionsOk(opts) && SchemaOk(schema) && UsedOk(opts, used) && ElementOk(schema, rule) && Shaped(schema, rule.rules, o)
    requires AllWhite(at.indent) && (at.depth == 0 ==> at.xmlns.None?)
    ensures var w := ElementItems(schema, opts, used, o, rule, at);
            w.Some? ==>
              && ItemsLegible(w.value.items)
              && (Apart(w.value.used) ==> (ItemsOk(w.value.items) <==> Plain(schema, rule.rules, o)))
              && (at.depth == 0 && !Apart(w.value.used) ==> !ItemsOk(w.value.items))
    decreases o
  {
    hide UsedOk, Named, PrefixFor, AttributeItems, ChildItems, ElementItems, Wrap, TagAttrs, AllShaped, DistinctElements,
         DistinctAttributes, AttributeOk, IsName, AllWhite, ItemsOk, ItemsLegible, AttrsOk, AttrsPrintable, NameOk, OptionsOk,
         PlainAttributes, AllPlain, Apart;
    var rules := schema[rule.rules];
    assert rules in schema;
    ElementIs(schema, opts, used, o, rule, at);
    AttributesGrow(opts, used, rules.attributes, o.attributes);
    var a := AttributeItems(opts, used, rules.attributes, o.attributes);
    if a.Some? {
      var below := Below(opts, at, rule.ns);
      ChildrenGrow(schema, opts, a.value.used, rules.elements, o.fields, below);
      WhiteIndent(opts, at);
      ChildItemsIff(schema, opts, a.value.used, rules.elements, o.fields, below);
      var c := ChildItems(schema, opts, a.value.used, rules.elements, o.fields, below);
      if c.Some? {
        TagIff(opts, used, rules.attributes, o.attributes, at, rule.ns, c.value.used);
        NamedGrows(opts, c.value.used, rule.ns);
        var last := ElementItems(schema, opts, used, o, rule, at).value.used;
        assert c.value.used <= last;
        if Apart(last) { ApartFront(c.value.used, last); }
        ElementPrefixOk(opts, c.value.used, at, rule, schema);
        WrapIff(opts, at.indent, ElementPrefix(opts, c.value.used, at.xmlns, rule.ns), rule.local,
                TagAttrs(at, rule.ns, c.value.used, a.value.attrs), o.text, c.value.items);
      }
    }
  }

  lemma WhiteIndent(opts: Options, at: Place)
    requires OptionsOk(opts) && AllWhite(at.indent)
    ensures AllWhite(at.indent + opts.indent) && AllWhite(opts.newline)
  {
    hide AllWhite;
    WhiteBoth(at.indent, opts.indent);
  }

  lemma {:induction false} ChildItemsIff(schema: Schema, opts: Options, used: seq<Binding>, rules: seq<ElementRule>, fs: seq<Field>,
                                         at: Place)
    requires OptionsOk(opts) && SchemaOk(schema) && UsedOk(opts, used) && AllShaped(schema, rules, fs) && AllWhite(at.indent)
    requires (forall r :: r in rules ==> ElementOk(schema, r)) && (at.depth == 0 ==> at.xmlns.None?)
    ensures var w := ChildItems(schema, opts, used, rules, fs, at);
            w.Some? ==>
              && ItemsLegible(w.value.items)
              && (Apart(w.value.used) ==> (ItemsOk(w.value.items) <==> AllPlain(schema, rules, fs)))
              && (at.depth == 0 && Apart(used) && !Apart(w.value.used) ==> !ItemsOk(w.value.items))
    decreases fs
  {
    hide OptionsOk, UsedOk, ListItems, Counted, ListShaped, IsName, ItemsOk, ItemsLegible, AllWhite, ListPlain, Apart;
    if fs != [] {
      assert rules[0] in rules;
      ListItemsIff(schema, opts, used, rules[0], fs[0].items, at);
      ListGrows(schema, opts, used, rules[0], fs[0].items, at);
      var w := ListItems(schema, opts, used, rules[0], fs[0].items, at);
      if w.Some? {
        ChildItemsIff(schema, opts, w.value.used, rules[1..], fs[1..], at);
        ChildrenGrow(schema, opts, w.value.used, rules[1..], fs[1..], at);
        var c := ChildItems(schema, opts, w.value.used, rules[1..], fs[1..], at);
        if c.Some? {
          AppendIff(w.value.items, c.value.items);
          if Apart(c.value.used) { ApartFront(w.value.used, c.value.used); }
        }
      }
    } else {
      NothingOk();
    }
  }

  lemma NothingOk()
    ensures ItemsOk([]) && ItemsLegible([])
  {
  }

  lemma {:induction false} ListItemsIff(schema: Schema, opts: Options, used: seq<Binding>, rule: ElementRule, items: seq<Obj>, at: Place)
    requires OptionsOk(opts) && SchemaOk(schema) && UsedOk(opts, used) && ElementOk(schema, rule) && ListShaped(schema, rule.rules, items)
    requires AllWhite(at.indent) && (at.depth == 0 ==> at.xmlns.None?)
    ensures var w := ListItems(schema, opts, used, rule, items, at);
            w.Some? ==>
              && ItemsLegible(w.value.items)
              && (Apart(w.value.used) ==> (ItemsOk(w.value.items) <==> ListPlain(schema, rule.rules, items)))
              && (at.depth == 0 && Apart(used) && !Apart(w.value.used) ==> !ItemsOk(w.value.items))
    decreases items
  {
    hide OptionsOk, UsedOk, ElementItems, Shaped, IsName, Led, ItemsOk, ItemsLegible, AllWhite, Plain, Apart;
    if items != [] {
      ElementItemsIff(schema, opts, used, items[0], rule, at);
      ElementGrows(schema, opts, used, items[0], rule, at);
      WhiteIndent(opts, at);
      var w := ElementItems(schema, opts, used, items[0], rule, at);
      if w.Some? {
        LedIff(opts.newline, w.value.items);
        ListItemsIff(schema, opts, w.value.used, rule, items[1..], at);
        ListGrows(schema, opts, w.value.used, rule, items[1..], at);
        var c := ListItems(schema, opts, w.value.used, rule, items[1..], at);
        if c.Some? {
          AppendIff(Led(opts.newline, w.value.items), c.value.items);
          if Apart(c.value.used) { ApartFront(w.value.used, c.value.used); }
        }
      }
    } else {
      NothingOk();
    }
  }

  // ------------------------------------------------------------------ what the handler makes of it

  /** The frame with more objects in one of its slots. */
  function AttachAll(f: Frame, k: nat, os: seq<Obj>): Frame
    requires f.element.Some? && k < |f.element.value.fields|
  {
    var p := f.element.value;
    f.(element := Some(p.(fields := p.fields[k := Field(p.fields[k].items + os)])))
  }

  lemma AttachNone(f: Frame, k: nat)
    requires f.element.Some? && k < |f.element.value.fields|
    ensures AttachAll(f, k, []) == f
  {
    var p := f.element.value;
    assert p.fields[k].items + [] == p.fields[k].items;
    assert p.fields[k := p.fields[k]] == p.fields;
  }

  lemma AttachBoth(f: Frame, k: nat, a: seq<Obj>, b: seq<Obj>)
    requires f.element.Some? && k < |f.element.value.fields|
    ensures AttachAll(AttachAll(f, k, a), k, b) == AttachAll(f, k, a + b)
  {
    var p := f.element.value;
    assert p.fields[k].items + a + b == p.fields[k].items + (a + b);
    var x := Field(p.fields[k].items + a);
    var y := Field(p.fields[k].items + (a + b));
    assert p.fields[k := x][k := y] == p.fields[k := y];
  }

  lemma {:induction false} RunLed(g: P.Setting, st: P.State, lead: string, items: seq<Item>)
    requires P.StateOk(g, st)
    ensures Run(g, st, Led(lead, items)) == Run(g, st, items)
  {
    hide P.Step, P.StateOk, TokenOf;
    if items != [] { assert Led(lead, items)[1..] == items[1..]; }
  }

  lemma RunOne(g: P.Setting, st: P.State, i: Item)
    requires P.StateOk(g, st)
    ensures Run(g, st, [i]) == P.Step(g, st, TokenOf(i.markup))
  {
    hide P.Step, P.StateOk, TokenOf;
    assert [i][1..] == [];
    P.StepKeeps(g, st, TokenOf(i.markup));
  }

  function Top(st: P.State): Frame
    requires st.frames != []
  {
    st.frames[|st.frames| - 1]
  }

  function WithTop(st: P.State, f: Frame): P.State
    requires st.frames != []
  {
    st.(frames := WithLast(st.frames, f))
  }

  lemma TopTwice(st: P.State, f: Frame, h: Frame)
    requires st.frames != []
    ensures WithTop(st, f).frames != [] && Top(WithTop(st, f)) == f && WithTop(WithTop(st, f), h) == WithTop(st, h)
    ensures WithTop(st, Top(st)) == st
  {
    assert WithLast(st.frames, f)[..|st.frames| - 1] == st.frames[..|st.frames| - 1];
    assert WithLast(st.frames, Top(st)) == st.frames;
  }

  /** Sections add their text to an element that takes text. */
  lemma {:induction false} SectionsRun(g: P.Setting, st: P.State, sections: seq<string>)
    requires P.StateOk(g, st) && RulesOf(g.schema, Top(st)).characters
    ensures Run(g, st, SectionItems(sections)) == Some(WithTop(st, Top(st).(characters := Top(st).characters + Joined(sections))))
    decreases |sections|
  {
    hide StackOk;
    var f := Top(st);
    if sections == [] {
      assert f.characters + "" == f.characters;
      TopTwice(st, f, f);
    } else {
      var st1 := WithTop(st, f.(characters := f.characters + sections[0]));
      P.StepKeeps(g, st, P.CDataSection(sections[0]));
      TopTwice(st, f.(characters := f.characters + sections[0]), f.(characters := f.characters + Joined(sections)));
      SectionsRun(g, st1, sections[1..]);
      assert (f.characters + sections[0]) + Joined(sections[1..]) == f.characters + (sections[0] + Joined(sections[1..]));
      assert SectionItems(sections)[1..] == SectionItems(sections[1..]);
    }
  }

  lemma TextRun(g: P.Setting, st: P.State, text: string, lead: string)
    requires P.StateOk(g, st) && (text != "" ==> RulesOf(g.schema, Top(st)).characters)
    ensures Run(g, st, TextItems(text, lead)) == Some(WithTop(st, Top(st).(characters := Top(st).characters + text)))
  {
    hide StackOk, Run, Split, RulesOf, Led;
    if text == "" {
      assert Top(st).characters + "" == Top(st).characters;
      TopTwice(st, Top(st), Top(st));
      RunNone(g, st);
    } else {
      SectionsAreText(text, "");
      assert "" + text == text;
      RunLed(g, st, lead, SectionItems(Sections(Split(text), "")));
      SectionsRun(g, st, Sections(Split(text), ""));
    }
  }

  lemma RunNone(g: P.Setting, st: P.State)
    requires P.StateOk(g, st)
    ensures Run(g, st, []) == Some(st)
  {
  }

  // ------------------------------------------------------------------ opening and closing

  /** The frame of an element whose tag has been read. */
  function Started(schema: Schema, rule: ElementRule, k: nat, o: Obj): Frame
    requires rule.rules < |schema| && |o.attributes| == |schema[rule.rules].attributes|
  {
    var rules := schema[rule.rules];
    Frame(Some(Blank(rules).(attributes := Defaults(rules.attributes, o.attributes))), "", Some(rule.rules), Some(k))
  }

  /** The place of the element agrees with the state of the parser, and the parent has a slot for it. */
  ghost predicate Stands(g: P.Setting, st: P.State, rule: ElementRule, at: Place, k: nat)
  {
    && P.StateOk(g, st) && |st.scopes| == at.depth + 1 && st.scopes[|st.scopes| - 1].default == ReadNs(at.xmlns)
    && Slot(g, Top(st), rule, k)
  }

  predicate Slot(g: P.Setting, f: Frame, rule: ElementRule, k: nat)
  {
    && f.element.Some? && f.rules.Some? && f.rules.value < |g.schema|
    && k < |RulesOf(g.schema, f).elements| == |f.element.value.fields| && RulesOf(g.schema, f).elements[k] == rule
  }

  lemma {:induction false} ElementKeyFinds(rules: seq<ElementRule>, i: nat)
    requires DistinctElements(rules) && i < |rules|
    ensures FindElement(rules, RuleKey(rules[i].local, rules[i].ns)) == Some(i)
  {
    hide RuleKey;
    FoundElement(rules, RuleKey(rules[i].local, rules[i].ns));
  }

  /** The scopes inside the tag of an element. */
  function Inside(opts: Options, st: P.State, rule: ElementRule, at: Place, used: seq<Binding>, attrs: seq<RawAttr>): seq<P.Scope>
    requires st.scopes != []
  {
    P.Entered(st.scopes, P.Name(ElementPrefix(opts, used, at.xmlns, rule.ns), rule.local), Decoded(TagAttrs(at, rule.ns, used, attrs)))
  }

  lemma NameResolves(g: P.Setting, opts: Options, st: P.State, rule: ElementRule, at: Place, used: seq<Binding>, all: seq<Binding>,
                     rules: seq<AttributeRule>, attrs: seq<RawAttr>)
    requires OptionsOk(opts) && UsedOk(opts, used) && st.scopes != [] && ElementOk(g.schema, rule)
    requires st.scopes[|st.scopes| - 1].default == ReadNs(at.xmlns) && (at.depth == 0 ==> at.xmlns.None? && Apart(used))
    requires Sourced(attrs, rules, used) && (forall r :: r in rules ==> AttributeOk(r)) && (forall a :: a in attrs ==> '"' !in a.raw)
    requires at.depth > 0 ==> Binds(st.scopes, all) && used <= all && (rule.ns != ScopeOf(at.xmlns, rule.ns) ==> Named(opts, used, rule.ns) <= all)
    ensures P.NamespaceOf(Inside(opts, st, rule, at, used, attrs), ElementPrefix(opts, used, at.xmlns, rule.ns)) == ReadNs(rule.ns)
    ensures Binds(Inside(opts, st, rule, at, used, attrs), used)
  {
    hide OptionsOk, UsedOk, IsName, PrefixFor, Named, Sourced, AttributeOk, P.DefaultNs, P.Prefixes, TagAttrs, Decoded, DecodeEntities;
    var prefix := ElementPrefix(opts, used, at.xmlns, rule.ns);
    var name := P.Name(prefix, rule.local);
    var scopes := Inside(opts, st, rule, at, used, attrs);
    assert at.depth > 0 ==> Binds(st.scopes, used) by { if at.depth > 0 { FewerBound(st.scopes, used, all); } }
    DefaultBack(opts, at, rule.ns, used, rules, attrs);
    PrefixesBack(opts, at, rule.ns, used, rules, attrs, st.scopes, name);
    assert scopes[|scopes| - 1].default == ReadNs(ScopeOf(at.xmlns, rule.ns));
    if rule.ns != ScopeOf(at.xmlns, rule.ns) {
      NamedGrows(opts, used, rule.ns);
      var next := Named(opts, used, rule.ns);
      var b := Binding(rule.ns.value, prefix.value);
      BindingOk(opts, next, b);
      NameNonempty(prefix.value);
      assert b in all;
      NotShadowed(opts, at, rule.ns, used, rules, attrs, st.scopes, name, b.prefix);
    }
  }

  lemma FewerBound(scopes: seq<P.Scope>, used: seq<Binding>, all: seq<Binding>)
    requires Binds(scopes, all) && used <= all
    ensures Binds(scopes, used)
  {
    hide DecodeEntities;
    forall b | b in used ensures P.Lookup(scopes, b.prefix) == Some(DecodeEntities(b.uri))
    {
      assert b in all;
    }
  }

  /** Inner tags declare no prefixes. */
  lemma NotShadowed(opts: Options, at: Place, ns: Option<string>, used: seq<Binding>, rules: seq<AttributeRule>, attrs: seq<RawAttr>,
                    scopes: seq<P.Scope>, name: P.Name, prefix: string)
    requires OptionsOk(opts) && UsedOk(opts, used) && NsOk(ns) && Sourced(attrs, rules, used) && scopes != [] && at.depth > 0
    requires (forall r :: r in rules ==> AttributeOk(r)) && (forall a :: a in attrs ==> '"' !in a.raw)
    ensures P.Lookup(P.Entered(scopes, name, Decoded(TagAttrs(at, ns, used, attrs))), prefix) == P.Lookup(scopes, prefix)
  {
    hide OptionsOk, UsedOk, Sourced, DecodeEntities, AttributeOk, P.DefaultNs, P.Prefixes, IsName;
    var head := Declaration(at.xmlns, ns);
    assert TagAttrs(at, ns, used, attrs) == head + attrs by { assert [] + attrs == attrs; }
    DecodedAppend(head, attrs);
    RulesDeclareNothing(opts, used, rules, attrs);
    NoPrefixes(Decoded(attrs));
    DecodedAt(head);
    NoPrefixes(Decoded(head));
    PrefixesAppend(Decoded(head), Decoded(attrs));
    var inner := P.Entered(scopes, name, Decoded(TagAttrs(at, ns, used, attrs)));
    assert inner[..|inner| - 1] == scopes;
  }

  /** Reading a start tag opens the object with its attributes. */
  lemma TagRuns(g: P.Setting, opts: Options, used: seq<Binding>, o: Obj, rule: ElementRule, at: Place, st: P.State, k: nat,
                used1: seq<Binding>, all: seq<Binding>)
    requires OptionsOk(opts) && SchemaOk(g.schema) && UsedOk(opts, used) && UsedOk(opts, used1) && ElementOk(g.schema, rule)
    requires Stands(g, st, rule, at, k) && (at.depth == 0 ==> at.xmlns.None? && Apart(used1))
    requires LiteralNs(rule.ns)
    requires rule.many || Top(st).element.value.fields[k].items == []
    requires |o.attributes| == |g.schema[rule.rules].attributes| && LiteralAttributes(g.schema[rule.rules].attributes, o.attributes)
    requires var a := AttributeItems(opts, used, g.schema[rule.rules].attributes, o.attributes); a.Some? && a.value.used <= used1
    requires at.depth > 0 ==> Binds(st.scopes, all) && used1 <= all && (rule.ns != ScopeOf(at.xmlns, rule.ns) ==> Named(opts, used1, rule.ns) <= all)
    ensures var attrs := AttributeItems(opts, used, g.schema[rule.rules].attributes, o.attributes).value.attrs;
            var scopes := Inside(opts, st, rule, at, used1, attrs);
            && Opened(g.schema, g.validate, st.frames, rule.local,
                      P.NamespaceOf(scopes, ElementPrefix(opts, used1, at.xmlns, rule.ns)),
                      P.Resolved(scopes, Decoded(TagAttrs(at, rule.ns, used1, attrs))))
               == Some(st.frames + [Started(g.schema, rule, k, o)])
            && Binds(scopes, used1) && scopes[|scopes| - 1].default == ReadNs(ScopeOf(at.xmlns, rule.ns))
  {
    hide OptionsOk, UsedOk, Named, PrefixFor, AttributeItems, TagAttrs, IsName, P.Resolved, Decoded, P.DefaultNs, P.Prefixes,
         P.NamespaceOf, RuleKey, Binds, AssignAll, Defaults, Missing, DistinctAttributes, DistinctElements, AttributeOk, StackOk, Sourced, LiteralAttributes, ReadNs,
         LiteralNs;
    LiteralRead(rule.ns);
    var rules := g.schema[rule.rules];
    assert rules in g.schema;
    var attrs := AttributeItems(opts, used, rules.attributes, o.attributes).value.attrs;
    var scopes := Inside(opts, st, rule, at, used1, attrs);
    AttributesSourced(opts, used, rules.attributes, o.attributes, used1);
    EncodedValues(opts, used, rules.attributes, o.attributes);
    NameResolves(g, opts, st, rule, at, used1, all, rules.attributes, attrs);
    DefaultBack(opts, at, rule.ns, used1, rules.attributes, attrs);
    AssignBack(opts, used, rules.attributes, o.attributes, at, rule.ns, used1, scopes);
    PresentFills(opts, used, rules.attributes, o.attributes);
    var parent := Top(st);
    LastOk(g.schema, st.frames);
    assert RulesOf(g.schema, parent) in g.schema;
    ElementKeyFinds(RulesOf(g.schema, parent).elements, k);
  }

  // ------------------------------------------------------------------ elements, lists and children

  /** The frame of an element just before it ends. */
  function Full(schema: Schema, rule: ElementRule, k: nat, o: Obj): Frame
    requires rule.rules < |schema| && Shaped(schema, rule.rules, o)
  {
    var rules := schema[rule.rules];
    Frame(Some(Obj(Defaults(rules.attributes, o.attributes), "", AllFilled(schema, rules.elements, o.fields))), o.text,
          Some(rule.rules), Some(k))
  }

  function WithFields(f: Frame, fields: seq<Field>): Frame
    requires f.element.Some?
  {
    f.(element := Some(f.element.value.(fields := fields)))
  }

  lemma {:induction false} FilledLengths(schema: Schema, rules: seq<ElementRule>, fs: seq<Field>)
    requires AllShaped(schema, rules, fs)
    ensures var a := AllFilled(schema, rules, fs);
            |a| == |fs| && forall i :: 0 <= i < |fs| ==> |a[i].items| == |fs[i].items|
    decreases fs
  {
    hide ListFilled, ListShaped;
    if fs != [] {
      FilledLengths(schema, rules[1..], fs[1..]);
      ListLength(schema, rules[0].rules, fs[0].items);
      var a := AllFilled(schema, rules, fs);
      assert forall i :: 1 <= i < |fs| ==> a[i] == AllFilled(schema, rules[1..], fs[1..])[i - 1] && fs[i] == fs[1..][i - 1];
    }
  }

  lemma {:induction false} ListLength(schema: Schema, r: nat, items: seq<Obj>)
    requires r < |schema| && ListShaped(schema, r, items)
    ensures |ListFilled(schema, r, items)| == |items|
    decreases items
  {
    hide Filled, Shaped;
    if items != [] { ListLength(schema, r, items[1..]); }
  }

  /** What the writer let pass, the validation lets pass. */
  lemma {:induction false} CountsAgree(schema: Schema, opts: Options, used: seq<Binding>, rules: seq<ElementRule>, fs: seq<Field>, at: Place)
    requires AllShaped(schema, rules, fs) && ChildItems(schema, opts, used, rules, fs, at).Some?
    requires forall r :: r in rules ==> ElementOk(schema, r)
    ensures Cardinal(rules, AllFilled(schema, rules, fs))
    decreases fs
  {
    hide ListItems, ListFilled, ListShaped, IsName, UriOk;
    if fs != [] {
      assert rules[0] in rules;
      var w := ListItems(schema, opts, used, rules[0], fs[0].items, at);
      CountsAgree(schema, opts, w.value.used, rules[1..], fs[1..], at);
      ListLength(schema, rules[0].rules, fs[0].items);
      FilledLengths(schema, rules, fs);
      var a, b := AllFilled(schema, rules, fs), AllFilled(schema, rules[1..], fs[1..]);
      forall i | 0 <= i < |rules| ensures InRange(rules[i], |a[i].items|)
      {
        if i > 0 { assert a[i] == b[i - 1] && rules[i] == rules[1..][i - 1]; }
      }
    }
  }

  /** Closing a full frame attaches the filled object to its parent. */
  lemma LeaveFull(g: P.Setting, st: P.State, rule: ElementRule, k: nat, o: Obj, scopes: seq<P.Scope>)
    requires P.StateOk(g, st) && Slot(g, Top(st), rule, k) && rule.rules < |g.schema| && Shaped(g.schema, rule.rules, o)
    requires Cardinal(g.schema[rule.rules].elements, AllFilled(g.schema, g.schema[rule.rules].elements, o.fields))
    requires |scopes| == |st.scopes| + 1 && scopes[..|st.scopes|] == st.scopes
    requires P.StateOk(g, P.State(scopes, st.frames + [Full(g.schema, rule, k, o)]))
    ensures P.Leave(g, P.State(scopes, st.frames + [Full(g.schema, rule, k, o)]))
         == Some(WithTop(st, AttachAll(Top(st), k, [Filled(g.schema, rule.rules, o)])))
  {
    hide Defaults, AllFilled, Cardinal, StackOk, AllShaped;
    var f := Full(g.schema, rule, k, o);
    var frames := st.frames + [f];
    LastOk(g.schema, frames);
    assert frames[..|st.frames|] == st.frames;
  }

  /** The children of an element are attached field by field. */
  lemma {:induction false} ChildrenRun(g: P.Setting, opts: Options, used: seq<Binding>, rules: seq<ElementRule>, fs: seq<Field>,
                                       at: Place, st: P.State, r: nat, j: nat, all: seq<Binding>)
    requires OptionsOk(opts) && SchemaOk(g.schema) && UsedOk(opts, used) && AllShaped(g.schema, rules, fs)
    requires P.StateOk(g, st) && |st.scopes| == at.depth + 1 && st.scopes[|st.scopes| - 1].default == ReadNs(at.xmlns)
    requires at.depth == 0 ==> at.xmlns.None?
    requires AllLiteral(g.schema, rules, fs)
    requires r < |g.schema| && Top(st).rules == Some(r) && Top(st).element.Some?
    requires |Top(st).element.value.fields| == |g.schema[r].elements| == j + |rules| && rules == g.schema[r].elements[j..]
    requires forall i :: j <= i < j + |rules| ==> Top(st).element.value.fields[i] == Field([])
    requires ChildItems(g.schema, opts, used, rules, fs, at).Some?
    requires var last := ChildItems(g.schema, opts, used, rules, fs, at).value.used;
             if at.depth > 0 then Binds(st.scopes, all) && last <= all else Apart(last)
    ensures Run(g, st, ChildItems(g.schema, opts, used, rules, fs, at).value.items)
         == Some(WithTop(st, WithFields(Top(st), Top(st).element.value.fields[..j] + AllFilled(g.schema, rules, fs))))
    decreases fs
  {
    hide OptionsOk, UsedOk, ListItems, Counted, ListShaped, ListFilled, StackOk, Run, Binds, Apart, ListLiteral, LiteralNs;
    var f := Top(st);
    var fields := f.element.value.fields;
    RulesIn(g.schema, r, j, rules);
    if fs == [] {
      assert fields[..j] + [] == fields;
      TopTwice(st, f, f);
      RunNone(g, st);
    } else {
      var rule, items := rules[0], fs[0].items;
      assert rule in rules;
      var w := ListItems(g.schema, opts, used, rule, items, at).value;
      ListGrows(g.schema, opts, used, rule, items, at);
      ChildrenGrow(g.schema, opts, w.used, rules[1..], fs[1..], at);
      var c := ChildItems(g.schema, opts, w.used, rules[1..], fs[1..], at).value;
      if at.depth == 0 { ApartFront(w.used, c.used); }
      ListRuns(g, opts, used, rule, items, at, st, j, all);
      RunAppend(g, st, w.items, c.items);
      var h := AttachAll(f, j, ListFilled(g.schema, rule.rules, items));
      var st1 := WithTop(st, h);
      var x := Field(ListFilled(g.schema, rule.rules, items));
      assert Field([]).items + x.items == x.items;
      assert h.element.value.fields == fields[j := x];
      TopTwice(st, h, WithFields(h, h.element.value.fields[..j + 1] + AllFilled(g.schema, rules[1..], fs[1..])));
      ChildrenRun(g, opts, w.used, rules[1..], fs[1..], at, st1, r, j + 1, all);
      Fields(fields, j, x, AllFilled(g.schema, rules[1..], fs[1..]));
    }
  }

  lemma Fields<T>(fields: seq<T>, j: nat, x: T, more: seq<T>)
    requires j < |fields|
    ensures fields[j := x][..j + 1] + more == fields[..j] + ([x] + more)
  {
  }

  lemma RulesIn(schema: Schema, r: nat, j: nat, rules: seq<ElementRule>)
    requires SchemaOk(schema) && r < |schema| && j <= |schema[r].elements| && rules == schema[r].elements[j..]
    ensures forall e :: e in rules ==> ElementOk(schema, e)
    ensures rules != [] ==> schema[r].elements[j] == rules[0] && rules[1..] == schema[r].elements[j + 1..]
  {
    hide ElementOk, AttributeOk, DistinctElements, DistinctAttributes;
    assert schema[r] in schema;
    assert forall e :: e in rules ==> e in schema[r].elements;
  }

  /** Attaching an object leaves the place as it is. */
  lemma StandsStill(g: P.Setting, st: P.State, rule: ElementRule, at: Place, k: nat, o: Obj)
    requires Stands(g, st, rule, at, k) && P.StateOk(g, WithTop(st, AttachAll(Top(st), k, [o])))
    ensures var st1 := WithTop(st, AttachAll(Top(st), k, [o]));
            && Stands(g, st1, rule, at, k)
            && Top(st1).element.value.fields[k].items == Top(st).element.value.fields[k].items + [o]
  {
    hide StackOk;
    var h := AttachAll(Top(st), k, [o]);
    TopTwice(st, h, h);
  }

  /** The elements of one rule are attached one after the other. */
  lemma {:induction false} ListRuns(g: P.Setting, opts: Options, used: seq<Binding>, rule: ElementRule, items: seq<Obj>,
                                    at: Place, st: P.State, k: nat, all: seq<Binding>)
    requires OptionsOk(opts) && SchemaOk(g.schema) && UsedOk(opts, used) && ElementOk(g.schema, rule) && ListShaped(g.schema, rule.rules, items)
    requires Stands(g, st, rule, at, k) && (at.depth == 0 ==> at.xmlns.None?)
    requires rule.many || |Top(st).element.value.fields[k].items| + |items| <= 1
    requires ListItems(g.schema, opts, used, rule, items, at).Some?
    requires ListLiteral(g.schema, rule.rules, items) && (items != [] ==> LiteralNs(rule.ns))
    requires var last := ListItems(g.schema, opts, used, rule, items, at).value.used;
             if at.depth > 0 then Binds(st.scopes, all) && last <= all else Apart(last)
    ensures Run(g, st, ListItems(g.schema, opts, used, rule, items, at).value.items)
         == Some(WithTop(st, AttachAll(Top(st), k, ListFilled(g.schema, rule.rules, items))))
    decreases items
  {
    hide OptionsOk, UsedOk, ElementItems, Shaped, Led, StackOk, Run, Binds, Filled, IsName, UriOk, AttachAll, AttributeOk, Apart, Literal,
         LiteralNs, ReadNs, RulesOf, SchemaOk;
    var f := Top(st);
    if items == [] {
      AttachNone(f, k);
      TopTwice(st, f, f);
      RunNone(g, st);
    } else {
      var w := ElementItems(g.schema, opts, used, items[0], rule, at).value;
      ElementGrows(g.schema, opts, used, items[0], rule, at);
      ListGrows(g.schema, opts, w.used, rule, items[1..], at);
      var c := ListItems(g.schema, opts, w.used, rule, items[1..], at).value;
      if at.depth == 0 { ApartFront(w.used, c.used); }
      ElementRuns(g, opts, used, items[0], rule, at, st, k, all);
      RunLed(g, st, opts.newline, w.items);
      RunAppend(g, st, Led(opts.newline, w.items), c.items);
      var o := Filled(g.schema, rule.rules, items[0]);
      var h := AttachAll(f, k, [o]);
      var rest := ListFilled(g.schema, rule.rules, items[1..]);
      TopTwice(st, h, h);
      StandsStill(g, st, rule, at, k, o);
      TopTwice(st, h, AttachAll(h, k, rest));
      ListRuns(g, opts, w.used, rule, items[1..], at, WithTop(st, h), k, all);
      AttachBoth(f, k, [o], rest);
    }
  }

  /** Handling a start tag enters the element. */
  lemma TagSteps(g: P.Setting, opts: Options, used: seq<Binding>, o: Obj, rule: ElementRule, at: Place, st: P.State, k: nat,
                 used1: seq<Binding>, all: seq<Binding>)
    requires OptionsOk(opts) && SchemaOk(g.schema) && UsedOk(opts, used) && UsedOk(opts, used1) && ElementOk(g.schema, rule)
    requires Stands(g, st, rule, at, k) && (at.depth == 0 ==> at.xmlns.None? && Apart(used1))
    requires LiteralNs(rule.ns)
    requires rule.many || Top(st).element.value.fields[k].items == []
    requires |o.attributes| == |g.schema[rule.rules].attributes| && LiteralAttributes(g.schema[rule.rules].attributes, o.attributes)
    requires var a := AttributeItems(opts, used, g.schema[rule.rules].attributes, o.attributes); a.Some? && a.value.used <= used1
    requires at.depth > 0 ==> Binds(st.scopes, all) && used1 <= all && (rule.ns != ScopeOf(at.xmlns, rule.ns) ==> Named(opts, used1, rule.ns) <= all)
    ensures var attrs := AttributeItems(opts, used, g.schema[rule.rules].attributes, o.attributes).value.attrs;
            var scopes := Inside(opts, st, rule, at, used1, attrs);
            var prefix, tag := ElementPrefix(opts, used1, at.xmlns, rule.ns), TagAttrs(at, rule.ns, used1, attrs);
            var st1 := P.State(scopes, st.frames + [Started(g.schema, rule, k, o)]);
            && |scopes| == |st.scopes| + 1 && scopes[..|st.scopes|] == st.scopes
            && scopes[|scopes| - 1].qName == P.Name(prefix, rule.local).Text()
            && Binds(scopes, used1) && scopes[|scopes| - 1].default == ReadNs(ScopeOf(at.xmlns, rule.ns))
            && P.StateOk(g, st1)
            && P.Step(g, st, TokenOf(Open(prefix, rule.local, tag, false))) == Some(st1)
            && P.Step(g, st, TokenOf(Open(prefix, rule.local, tag, true))) == P.Leave(g, st1)
  {
    hide OptionsOk, UsedOk, AttributeItems, StackOk, Binds, TagAttrs, Named, IsName, UriOk, PrefixFor, Inside, Started, DistinctAttributes,
         DistinctElements, AttributeOk, P.Step, P.Entered, Decoded, TokenOf, RuleKey, P.Name.Text, P.Leave, ElementPrefix,
         Apart, LiteralAttributes, LiteralNs, ReadNs;
    var attrs := AttributeItems(opts, used, g.schema[rule.rules].attributes, o.attributes).value.attrs;
    var scopes := Inside(opts, st, rule, at, used1, attrs);
    TagRuns(g, opts, used, o, rule, at, st, k, used1, all);
    InsideIs(opts, st, rule, at, used1, attrs);
    LastOk(g.schema, st.frames);
    OpenSteps(g, st, scopes, Started(g.schema, rule, k, o), ElementPrefix(opts, used1, at.xmlns, rule.ns), rule.local,
              TagAttrs(at, rule.ns, used1, attrs));
  }

  lemma {:induction false} ElementRuns(g: P.Setting, opts: Options, used: seq<Binding>, o: Obj, rule: ElementRule, at: Place,
                                       st: P.State, k: nat, all: seq<Binding>)
    requires OptionsOk(opts) && SchemaOk(g.schema) && UsedOk(opts, used) && ElementOk(g.schema, rule) && Shaped(g.schema, rule.rules, o)
    requires Stands(g, st, rule, at, k) && (at.depth == 0 ==> at.xmlns.None?)
    requires rule.many || Top(st).element.value.fields[k].items == []
    requires ElementItems(g.schema, opts, used, o, rule, at).Some?
    requires Literal(g.schema, rule.rules, o) && LiteralNs(rule.ns)
    requires var last := ElementItems(g.schema, opts, used, o, rule, at).value.used;
             if at.depth > 0 then Binds(st.scopes, all) && last <= all else Apart(last)
    ensures Run(g, st, ElementItems(g.schema, opts, used, o, rule, at).value.items)
         == Some(WithTop(st, AttachAll(Top(st), k, [Filled(g.schema, rule.rules, o)])))
    decreases o
  {
    hide OptionsOk, UsedOk, ElementItems, ChildItems, AttributeItems, StackOk, Run, Binds, Filled, TagAttrs, Wrap, Named, IsName, UriOk,
         PrefixFor, AllShaped, Inside, Full, Started, DistinctAttributes, DistinctElements, AttributeOk, P.Step, AllFilled, Cardinal,
         P.Entered, Decoded, TokenOf, AttachAll, RuleKey, WithFields, P.Name.Text, Apart, LiteralAttributes,
         LiteralNs, AllLiteral, ReadNs;
    var rules := g.schema[rule.rules];
    RulesIn(g.schema, rule.rules, 0, rules.elements);
    assert rules in g.schema;
    ElementIs(g.schema, opts, used, o, rule, at);
    var a := AttributeItems(opts, used, rules.attributes, o.attributes).value;
    var below := Below(opts, at, rule.ns);
    var c := ChildItems(g.schema, opts, a.used, rules.elements, o.fields, below).value;
    AttributesGrow(opts, used, rules.attributes, o.attributes);
    ChildrenGrow(g.schema, opts, a.used, rules.elements, o.fields, below);
    NamedGrows(opts, c.used, rule.ns);
    if at.depth == 0 { ApartFront(c.used, ElementItems(g.schema, opts, used, o, rule, at).value.used); }
    TagSteps(g, opts, used, o, rule, at, st, k, c.used, all);
    var scopes := Inside(opts, st, rule, at, c.used, a.attrs);
    var prefix, tag := ElementPrefix(opts, c.used, at.xmlns, rule.ns), TagAttrs(at, rule.ns, c.used, a.attrs);
    CountsAgree(g.schema, opts, a.used, rules.elements, o.fields, below);
    var f := Started(g.schema, rule, k, o).(characters := o.text);
    var st2 := P.State(scopes, st.frames + [f]);
    TextsRun(g, st, scopes, rule, k, o, "");
    StartedIs(g, st, scopes, rule, k, o);
    ChildrenRun(g, opts, a.used, rules.elements, o.fields, below, st2, rule.rules, 0, c.used);
    ElementEnds(g, opts, o, rule, at.indent, st, k, scopes, prefix, tag, c.items);
  }

  /** From the opened element to the closed one. */
  lemma ElementEnds(g: P.Setting, opts: Options, o: Obj, rule: ElementRule, indent: string, st: P.State, k: nat, scopes: seq<P.Scope>,
                    prefix: Option<string>, tag: seq<RawAttr>, kids: seq<Item>)
    requires P.StateOk(g, st) && Slot(g, Top(st), rule, k) && rule.rules < |g.schema| && Shaped(g.schema, rule.rules, o)
    requires Cardinal(g.schema[rule.rules].elements, AllFilled(g.schema, g.schema[rule.rules].elements, o.fields))
    requires |scopes| == |st.scopes| + 1 && scopes[..|st.scopes|] == st.scopes
    requires scopes[|scopes| - 1].qName == P.Name(prefix, rule.local).Text()
    requires var st1 := P.State(scopes, st.frames + [Started(g.schema, rule, k, o)]);
             && P.StateOk(g, st1)
             && P.Step(g, st, TokenOf(Open(prefix, rule.local, tag, false))) == Some(st1)
             && P.Step(g, st, TokenOf(Open(prefix, rule.local, tag, true))) == P.Leave(g, st1)
    requires var st2 := P.State(scopes, st.frames + [Started(g.schema, rule, k, o).(characters := o.text)]);
             P.StateOk(g, st2) && Run(g, st2, kids) == Some(P.State(scopes, st.frames + [Full(g.schema, rule, k, o)]))
    ensures Run(g, st, Wrap(opts, indent, prefix, rule.local, tag, o.text, kids))
         == Some(WithTop(st, AttachAll(Top(st), k, [Filled(g.schema, rule.rules, o)])))
  {
    hide StackOk, Run, Filled, Wrap, AllShaped, Full, Started, P.Step, Cardinal, AllFilled, P.Leave, P.Name.Text, AttachAll, TokenOf;
    var st1 := P.State(scopes, st.frames + [Started(g.schema, rule, k, o)]);
    var st2 := P.State(scopes, st.frames + [Started(g.schema, rule, k, o).(characters := o.text)]);
    var st3 := P.State(scopes, st.frames + [Full(g.schema, rule, k, o)]);
    TextsRun(g, st, scopes, rule, k, o, "");
    TextsRun(g, st, scopes, rule, k, o, opts.newline + (indent + opts.indent));
    LeaveFull(g, st, rule, k, o, scopes);
    CloseStep(g, st3, prefix, rule.local);
    WrapRuns(g, opts, indent, prefix, rule.local, tag, o.text, kids, st, st1, st2, st3,
             WithTop(st, AttachAll(Top(st), k, [Filled(g.schema, rule.rules, o)])));
  }

  lemma InsideIs(opts: Options, st: P.State, rule: ElementRule, at: Place, used: seq<Binding>, attrs: seq<RawAttr>)
    requires st.scopes != []
    ensures var scopes := Inside(opts, st, rule, at, used, attrs);
            var name := P.Name(ElementPrefix(opts, used, at.xmlns, rule.ns), rule.local);
            && |scopes| == |st.scopes| + 1 && scopes[..|st.scopes|] == st.scopes
            && scopes == P.Entered(st.scopes, name, Decoded(TagAttrs(at, rule.ns, used, attrs)))
            && scopes[|scopes| - 1].qName == name.Text()
  {
    hide P.Prefixes, P.DefaultNs, Decoded, TagAttrs, PrefixFor;
  }

  /** The start tag enters the element; a closed one leaves it again. */
  lemma OpenSteps(g: P.Setting, st: P.State, scopes: seq<P.Scope>, started: Frame, prefix: Option<string>, local: string, tag: seq<RawAttr>)
    requires P.StateOk(g, st) && scopes == P.Entered(st.scopes, P.Name(prefix, local), Decoded(tag))
    requires FrameOk(g.schema, Top(st))
    requires Opened(g.schema, g.validate, st.frames, local, P.NamespaceOf(scopes, prefix), P.Resolved(scopes, Decoded(tag)))
          == Some(st.frames + [started])
    ensures var st1 := P.State(scopes, st.frames + [started]);
            && P.StateOk(g, st1)
            && P.Step(g, st, TokenOf(Open(prefix, local, tag, false))) == Some(st1)
            && P.Step(g, st, TokenOf(Open(prefix, local, tag, true))) == P.Leave(g, st1)
  {
    hide P.Prefixes, P.DefaultNs, Decoded, P.Resolved, P.NamespaceOf, Opened, StackOk, P.Leave;
    StartKeeps(g.schema, g.validate, st.frames, local, P.NamespaceOf(scopes, prefix), P.Resolved(scopes, Decoded(tag)));
  }

  lemma CloseStep(g: P.Setting, st: P.State, prefix: Option<string>, local: string)
    requires P.StateOk(g, st) && |st.scopes| >= 2 && st.scopes[|st.scopes| - 1].qName == P.Name(prefix, local).Text()
    ensures P.Step(g, st, TokenOf(Close(prefix, local))) == P.Leave(g, st)
  {
    hide StackOk, P.Leave, P.Name.Text;
  }

  /** The text goes into the frame of the element. */
  lemma TextsRun(g: P.Setting, st: P.State, scopes: seq<P.Scope>, rule: ElementRule, k: nat, o: Obj, lead: string)
    requires rule.rules < |g.schema| && Shaped(g.schema, rule.rules, o)
    requires P.StateOk(g, P.State(scopes, st.frames + [Started(g.schema, rule, k, o)]))
    ensures Run(g, P.State(scopes, st.frames + [Started(g.schema, rule, k, o)]), TextItems(o.text, lead))
         == Some(P.State(scopes, st.frames + [Started(g.schema, rule, k, o).(characters := o.text)]))
  {
    hide StackOk, Run, TextItems, Defaults, AllShaped;
    var f := Started(g.schema, rule, k, o);
    var st1 := P.State(scopes, st.frames + [f]);
    TextRun(g, st1, o.text, lead);
    assert "" + o.text == o.text;
    assert (st.frames + [f])[..|st.frames|] == st.frames;
  }

  /** The started frame has empty fields, and with its fields filled it is full. */
  lemma StartedIs(g: P.Setting, st: P.State, scopes: seq<P.Scope>, rule: ElementRule, k: nat, o: Obj)
    requires rule.rules < |g.schema| && Shaped(g.schema, rule.rules, o)
    ensures var f := Started(g.schema, rule, k, o).(characters := o.text);
            var st2 := P.State(scopes, st.frames + [f]);
            && Top(st2) == f && f.rules == Some(rule.rules) && f.element.Some?
            && |f.element.value.fields| == |g.schema[rule.rules].elements|
            && (forall i :: 0 <= i < |f.element.value.fields| ==> f.element.value.fields[i] == Field([]))
            && WithTop(st2, WithFields(f, f.element.value.fields[..0] + AllFilled(g.schema, g.schema[rule.rules].elements, o.fields)))
               == P.State(scopes, st.frames + [Full(g.schema, rule, k, o)])
  {
    hide Defaults, AllFilled, AllShaped;
    var f := Started(g.schema, rule, k, o).(characters := o.text);
    var filled := AllFilled(g.schema, g.schema[rule.rules].elements, o.fields);
    assert f.element.value.fields[..0] + filled == filled;
    assert (st.frames + [f])[..|st.frames|] == st.frames;
  }

  /** The pieces of an element in a row. */
  lemma WrapRuns(g: P.Setting, opts: Options, indent: string, prefix: Option<string>, local: string, attrs: seq<RawAttr>, text: string,
                 kids: seq<Item>, st: P.State, st1: P.State, st2: P.State, st3: P.State, last: P.State)
    requires P.StateOk(g, st) && P.StateOk(g, st1) && P.StateOk(g, st2) && P.StateOk(g, st3) && |st1.scopes| >= 2
    requires P.Step(g, st, TokenOf(Open(prefix, local, attrs, false))) == Some(st1)
    requires P.Step(g, st, TokenOf(Open(prefix, local, attrs, true))) == P.Leave(g, st1)
    requires Run(g, st1, TextItems(text, "")) == Some(st2)
    requires Run(g, st1, TextItems(text, opts.newline + (indent + opts.indent))) == Some(st2)
    requires Run(g, st2, kids) == Some(st3)
    requires |st3.scopes| >= 2 && P.Leave(g, st3) == Some(last)
    requires P.Step(g, st3, TokenOf(Close(prefix, local))) == Some(last)
    ensures Run(g, st, Wrap(opts, indent, prefix, local, attrs, text, kids)) == Some(last)
  {
    hide P.StateOk, P.Step, P.Leave, Run, TokenOf, TextItems;
    var open, tag := Item(indent, Open(prefix, local, attrs, false)), Item(indent, Open(prefix, local, attrs, true));
    var end, near := Item(opts.newline + indent, Close(prefix, local)), Item("", Close(prefix, local));
    RunOne(g, st, open);
    RunOne(g, st, tag);
    RunOne(g, st3, end);
    RunOne(g, st3, near);
    if kids != [] {
      var texts := TextItems(text, opts.newline + (indent + opts.indent));
      RunAppend(g, st2, kids, [end]);
      RunAppend(g, st1, texts, kids + [end]);
      RunAppend(g, st, [open], texts + (kids + [end]));
    } else {
      RunNone(g, st2);
      if text != "" {
        RunAppend(g, st1, TextItems(text, ""), [near]);
        RunAppend(g, st, [open], TextItems(text, "") + [near]);
      } else {
        NoTextItems("");
        RunNone(g, st1);
      }
    }
  }

  lemma NoTextItems(lead: string)
    ensures TextItems("", lead) == []
  {
  }

  // ------------------------------------------------------------------ the document

  lemma {:induction false} FirstSpace(schema: Schema, opts: Options, used: seq<Binding>, rules: seq<ElementRule>, fs: seq<Field>, at: Place)
    requires AllShaped(schema, rules, fs)
    ensures var w := ChildItems(schema, opts, used, rules, fs, at);
            w.Some? && w.value.items != [] ==> exists rest :: w.value.items[0].space == opts.newline + rest
    decreases fs
  {
    hide ListShaped, Counted;
    if fs != [] {
      var w := ListItems(schema, opts, used, rules[0], fs[0].items, at);
      if w.Some? {
        if w.value.items == [] {
          FirstSpace(schema, opts, w.value.used, rules[1..], fs[1..], at);
          var c := ChildItems(schema, opts, w.value.used, rules[1..], fs[1..], at);
          if c.Some? { assert [] + c.value.items == c.value.items; }
        } else {
          FirstOfList(schema, opts, used, rules[0], fs[0].items, at);
        }
      }
    }
  }

  lemma FirstOfList(schema: Schema, opts: Options, used: seq<Binding>, rule: ElementRule, items: seq<Obj>, at: Place)
    requires rule.rules < |schema| && ListShaped(schema, rule.rules, items)
    ensures var w := ListItems(schema, opts, used, rule, items, at);
            w.Some? && w.value.items != [] ==> exists rest :: w.value.items[0].space == opts.newline + rest
  {
    hide ElementItems, Shaped;
    if items != [] {
      var w := ElementItems(schema, opts, used, items[0], rule, at);
      if w.Some? { ElementNonempty(schema, opts, used, items[0], rule, at); }
    }
  }

  /** The document as a list: the instruction, if any, then the children; without it the first line break goes. */
  function DocItems(opts: Options, kids: seq<Item>): seq<Item>
  {
    if opts.declaration then [Item("", Instruction)] + kids
    else if kids == [] || |kids[0].space| < |opts.newline| then kids
    else [Item(kids[0].space[|opts.newline|..], kids[0].markup)] + kids[1..]
  }

  /** White space behind the last piece. */
  function DocTail(opts: Options, kids: seq<Item>): string
  {
    if opts.declaration && kids == [] then opts.newline else ""
  }

  lemma DocPrints(opts: Options, kids: seq<Item>)
    requires kids != [] ==> exists rest :: kids[0].space == opts.newline + rest
    ensures Print(DocItems(opts, kids)) + DocTail(opts, kids)
         == (if opts.declaration then PrintMarkup(Instruction) + opts.newline else "") + Unled(opts, kids)
  {
    hide PrintMarkup, Print, Unled;
    UnledIs(opts, kids);
    if opts.declaration {
      PrintCons(Item("", Instruction), kids);
      assert "" + PrintMarkup(Instruction) == PrintMarkup(Instruction);
    } else if kids != [] {
      var rest :| kids[0].space == opts.newline + rest;
      assert kids[0].space[|opts.newline|..] == rest;
      PrintCons(Item(rest, kids[0].markup), kids[1..]);
      assert kids == [kids[0]] + kids[1..];
      PrintCons(kids[0], kids[1..]);
      var x := rest + (PrintMarkup(kids[0].markup) + Print(kids[1..]));
      assert Print(kids) == opts.newline + x;
      assert (opts.newline + x)[|opts.newline|..] == x;
      assert (opts.newline + Unled(opts, kids))[|opts.newline|..] == Unled(opts, kids);
    }
  }

  lemma PrintCons(i: Item, more: seq<Item>)
    ensures Print([i] + more) == i.space + (PrintMarkup(i.markup) + Print(more))
  {
    hide PrintMarkup;
    assert ([i] + more)[1..] == more;
  }

  /** What stands behind the first line break. */
  lemma UnledIs(opts: Options, kids: seq<Item>)
    requires kids != [] ==> exists rest :: kids[0].space == opts.newline + rest
    ensures Print([]) == ""
    ensures if kids == [] then Unled(opts, kids) == "" else Print(kids) == opts.newline + Unled(opts, kids)
  {
    hide PrintMarkup;
    if kids != [] {
      var rest :| kids[0].space == opts.newline + rest;
      PrintCons(kids[0], kids[1..]);
      assert Print(kids) == opts.newline + (rest + (PrintMarkup(kids[0].markup) + Print(kids[1..])));
    }
  }

  lemma DocIff(opts: Options, kids: seq<Item>)
    requires ItemsLegible(kids) && OptionsOk(opts)
    requires kids != [] ==> exists rest :: kids[0].space == opts.newline + rest
    ensures ItemsLegible(DocItems(opts, kids)) && AllWhite(DocTail(opts, kids))
    ensures ItemsOk(DocItems(opts, kids)) <==> ItemsOk(kids)
  {
    hide Printable, Legible, AllWhite, ItemsOk, ItemsLegible;
    NoSpace();
    InstructionPrintable();
    OneIff(Item("", Instruction));
    AppendIff([Item("", Instruction)], kids);
    if kids != [] {
      var rest :| kids[0].space == opts.newline + rest;
      WhiteBehind(opts.newline, rest);
      var first := Item(kids[0].space[|opts.newline|..], kids[0].markup);
      assert first.space == rest;
      assert kids == [kids[0]] + kids[1..];
      AppendIff([kids[0]], kids[1..]);
      AppendIff([first], kids[1..]);
      OneIff(kids[0]);
      OneIff(first);
    }
  }

  lemma WhiteBehind(a: string, b: string)
    ensures AllWhite(a + b) ==> AllWhite(b)
  {
    hide IsWhite;
    assert forall c :: c in b ==> c in a + b;
  }

  lemma InstructionPrintable()
    ensures Printable(Instruction) && Legible(Instruction)
  {
  }

  lemma DocRuns(g: P.Setting, opts: Options, kids: seq<Item>, st: P.State)
    requires P.StateOk(g, st)
    ensures Run(g, st, DocItems(opts, kids)) == Run(g, st, kids)
  {
    hide P.StateOk, P.Step, TokenOf;
    var pi := Item("", Instruction);
    RunOne(g, st, pi);
    SkipStep(g, st);
    RunAppend(g, st, [pi], kids);
    if kids != [] && |kids[0].space| >= |opts.newline| {
      var short := Item(kids[0].space[|opts.newline|..], kids[0].markup);
      assert ([short] + kids[1..])[1..] == kids[1..];
    }
  }

  lemma SkipStep(g: P.Setting, st: P.State)
    requires P.StateOk(g, st)
    ensures P.Step(g, st, TokenOf(Instruction)) == Some(st)
  {
    hide P.StateOk;
  }

  /** Only white space is left. */
  lemma ParseTail(g: P.Setting, s: string, pos: nat, st: P.State)
    requires P.StateOk(g, st) && pos <= |s| && AllWhite(s[pos..])
    ensures P.Parse(g, s, pos, st) == Some(st)
  {
    hide P.StateOk, RunEnd, P.Step, P.Markup, P.Parse, P.WithText, IsWhite;
    if pos >= |s| { EndStays(g, s, pos, st); } else {
      WhiteIsNotOpening(s[pos..]);
      assert s[pos..] + [] == s[pos..];
      RunOver(s, pos, s[pos..], [], P.NotOpening);
      P.ParseStep(g, s, pos, st);
      assert s[pos..|s|] == s[pos..];
      WhiteText(g, st, s[pos..]);
    }
  }

  lemma EndStays(g: P.Setting, s: string, pos: nat, st: P.State)
    requires P.StateOk(g, st) && pos >= |s|
    ensures P.Parse(g, s, pos, st) == Some(st)
  {
    hide P.StateOk;
  }

  lemma WhiteIsNotOpening(s: string)
    requires AllWhite(s)
    ensures forall c :: c in s ==> P.NotOpening(c)
  {
  }

  /** What the document consists of, when the writer accepts the object. */
  lemma DocumentIs(schema: Schema, opts: Options, root: nat, o: Obj)
    requires SchemaOk(schema) && OptionsOk(opts) && root < |schema| && Shaped(schema, root, o)
    requires Document(schema, opts, [], root, o).Some?
    ensures var w := ChildItems(schema, opts, [], schema[root].elements, o.fields, TOP);
            && w.Some?
            && Document(schema, opts, [], root, o).value == Print(DocItems(opts, w.value.items)) + DocTail(opts, w.value.items)
            && ItemsLegible(DocItems(opts, w.value.items)) && AllWhite(DocTail(opts, w.value.items))
            && (ItemsOk(DocItems(opts, w.value.items)) <==> AllPlain(schema, schema[root].elements, o.fields) && Apart(w.value.used))
  {
    hide OptionsOk, ChildItems, AllShaped, Print, PrintMarkup, Unled, ItemsOk, ItemsLegible, DocItems, DocTail, AllPlain, AllWhite, Apart;
    var kids := ChildItems(schema, opts, [], schema[root].elements, o.fields, TOP).value.items;
    RulesIn(schema, root, 0, schema[root].elements);
    NoSpace();
    NothingUsed(opts);
    ChildItemsIff(schema, opts, [], schema[root].elements, o.fields, TOP);
    FirstSpace(schema, opts, [], schema[root].elements, o.fields, TOP);
    DocPrints(opts, kids);
    DocIff(opts, kids);
  }

  lemma NothingUsed(opts: Options)
    ensures UsedOk(opts, []) && Apart([])
  {
  }

  /** The namespaces a written document declares prefixes for. */
  function Bindings(schema: Schema, opts: Options, root: nat, o: Obj): seq<Binding>
    requires root < |schema| && Shaped(schema, root, o)
  {
    match ChildItems(schema, opts, [], schema[root].elements, o.fields, TOP) case None => [] case Some(w) => w.used
  }

  /** What a document can be read back from: no attribute is written with a name that every object has, and no two
      namespaces with the same prefix. */
  predicate Readable(schema: Schema, opts: Options, root: nat, o: Obj)
    requires root < |schema| && Shaped(schema, root, o)
  {
    AllPlain(schema, schema[root].elements, o.fields) && Apart(Bindings(schema, opts, root, o))
  }

  /** The object with the defaults of absent attributes filled in, as the parser gives it back. */
  function Restored(schema: Schema, root: nat, o: Obj): Option<Option<Obj>>
    requires root < |schema| && Shaped(schema, root, o)
  {
    Some(Some(Obj(Blank(schema[root]).attributes, "", Filled(schema, root, o).fields)))
  }

  /** A readable document is handled piece by piece. */
  lemma {:induction false} DocumentRuns(schema: Schema, validate: bool, opts: Options, root: nat, o: Obj)
    requires SchemaOk(schema) && OptionsOk(opts) && root < |schema| && Shaped(schema, root, o)
    requires Document(schema, opts, [], root, o).Some? && Readable(schema, opts, root, o)
    ensures var g := P.Setting(schema, validate);
            var w := ChildItems(schema, opts, [], schema[root].elements, o.fields, TOP);
            var st := P.State([P.DOCUMENT], [RootFrame(schema, root)]);
            && w.Some? && P.StateOk(g, st)
            && P.Parsed(g, root, Document(schema, opts, [], root, o).value)
               == match Run(g, st, w.value.items)
                  case None => None
                  case Some(st1) => Finished(schema, validate, st1.frames)
  {
    hide OptionsOk, ChildItems, StackOk, Run, AllShaped, P.Parse, Print, PrintMarkup, P.StateOk, Unled, ItemsOk,
         ItemsLegible, Document, AllPlain, DocItems, DocTail, Apart, Finished;
    var g := P.Setting(schema, validate);
    var str := Document(schema, opts, [], root, o).value;
    DocumentIs(schema, opts, root, o);
    var kids := ChildItems(schema, opts, [], schema[root].elements, o.fields, TOP).value.items;
    var st := P.State([P.DOCUMENT], [RootFrame(schema, root)]);
    P.RootOk(g, root);
    var items, tail := DocItems(opts, kids), DocTail(opts, kids);
    assert str[0..] == Print(items) + tail;
    ItemsBack(g, str, 0, st, items, tail);
    DocRuns(g, opts, kids, st);
    var r := Run(g, st, kids);
    if r.Some? {
      assert str[|Print(items)|..] == tail;
      ParseTail(g, str, |Print(items)|, r.value);
      assert P.StateOk(g, r.value);
      StateFrames(g, r.value);
    }
  }

  /** Parsing what was written gives the object back: for every schema and every object that fits it, if the
      writer accepts the object, then the parser accepts the document, and the object it builds is the written
      one with the defaults of absent attributes filled in - as long as the document is readable and every namespace
      written in it is read as it is written. */
  lemma {:induction false} RoundTrip(schema: Schema, validate: bool, opts: Options, root: nat, o: Obj)
    requires SchemaOk(schema) && OptionsOk(opts) && root < |schema| && Shaped(schema, root, o)
    requires Document(schema, opts, [], root, o).Some?
    requires Readable(schema, opts, root, o) && AllLiteral(schema, schema[root].elements, o.fields)
    ensures P.Parsed(P.Setting(schema, validate), root, Document(schema, opts, [], root, o).value) == Restored(schema, root, o)
  {
    hide OptionsOk, ChildItems, StackOk, Run, AllShaped, AllFilled, Defaults, P.StateOk, Document, AllPlain, Apart, AllLiteral;
    var g := P.Setting(schema, validate);
    DocumentRuns(schema, validate, opts, root, o);
    var kids := ChildItems(schema, opts, [], schema[root].elements, o.fields, TOP).value.items;
    var st := P.State([P.DOCUMENT], [RootFrame(schema, root)]);
    RootRuns(g, opts, root, o, st);
    var st1 := Run(g, st, kids).value;
    assert P.StateOk(g, st1);
    StateFrames(g, st1);
    RootEnds(g, opts, root, o, st);
  }

  /** A document that is not readable is refused. */
  lemma {:induction false} UnreadableRefused(schema: Schema, validate: bool, opts: Options, root: nat, o: Obj)
    requires SchemaOk(schema) && OptionsOk(opts) && root < |schema| && Shaped(schema, root, o)
    requires Document(schema, opts, [], root, o).Some? && !Readable(schema, opts, root, o)
    ensures P.Parsed(P.Setting(schema, validate), root, Document(schema, opts, [], root, o).value) == None
  {
    hide OptionsOk, ChildItems, AllShaped, AllFilled, Defaults, P.Parse, Print, P.StateOk, ItemsOk, ItemsLegible, Document, AllPlain,
         DocItems, DocTail, Apart;
    var g := P.Setting(schema, validate);
    var str := Document(schema, opts, [], root, o).value;
    DocumentIs(schema, opts, root, o);
    var kids := ChildItems(schema, opts, [], schema[root].elements, o.fields, TOP).value.items;
    P.RootOk(g, root);
    assert str[0..] == str;
    ItemsFail(g, str, 0, P.State([P.DOCUMENT], [RootFrame(schema, root)]), DocItems(opts, kids), DocTail(opts, kids));
  }

  /** A schema with an attribute called `constructor`: the writer writes it, and the parser refuses the document. */
  lemma ConstructorRefused(validate: bool, opts: Options, value: string)
    requires OptionsOk(opts)
    ensures var schema := [RuleSet([], [ElementRule("a", None, false, 0, Some(1), 1)], false),
                           RuleSet([AttributeRule("constructor", None, false, None)], [], false)];
            var o := Obj([], "", [Field([Obj([Some(value)], "", [])])]);
            && SchemaOk(schema) && Shaped(schema, 0, o) && Document(schema, opts, [], 0, o).Some?
            && P.Parsed(P.Setting(schema, validate), 0, Document(schema, opts, [], 0, o).value) == None
  {
    var rule, attribute := ElementRule("a", None, false, 0, Some(1), 1), AttributeRule("constructor", None, false, None);
    var schema := [RuleSet([], [rule], false), RuleSet([attribute], [], false)];
    var inner := Obj([Some(value)], "", []);
    var o := Obj([], "", [Field([inner])]);
    ConstructorSchema(schema);
    ConstructorWritten(schema, opts, inner);
    hide OptionsOk, Document, P.Parsed, SchemaOk, AllPlain;
    UnreadableRefused(schema, validate, opts, 0, o);
  }

  lemma ConstructorSchema(schema: Schema)
    requires schema == [RuleSet([], [ElementRule("a", None, false, 0, Some(1), 1)], false),
                        RuleSet([AttributeRule("constructor", None, false, None)], [], false)]
    ensures SchemaOk(schema)
  {
    LetterIsName();
    ConstructorIsName();
    hide IsName;
  }

  lemma ConstructorIsName()
    ensures IsName("constructor")
  {
  }

  lemma ConstructorWritten(schema: Schema, opts: Options, inner: Obj)
    requires |schema| == 2 && schema[0] == RuleSet([], [ElementRule("a", None, false, 0, Some(1), 1)], false)
    requires schema[1] == RuleSet([AttributeRule("constructor", None, false, None)], [], false)
    requires |inner.attributes| == 1 && inner.attributes[0].Some? && inner.text == "" && inner.fields == []
    ensures var o := Obj([], "", [Field([inner])]);
            Shaped(schema, 0, o) && Document(schema, opts, [], 0, o).Some? && !AllPlain(schema, schema[0].elements, o.fields)
  {
    var o := Obj([], "", [Field([inner])]);
    var rule := schema[0].elements[0];
    assert Shaped(schema, 1, inner);
    assert [inner][1..] == [];
    assert ListShaped(schema, 1, [inner]);
    assert o.fields[1..] == [] && schema[0].elements[1..] == [];
    assert AllShaped(schema, schema[0].elements, o.fields);
    assert !PlainAttributes(schema[1].attributes, inner.attributes) by { assert InheritedName(schema[1].attributes[0]); }
    assert !Plain(schema, 1, inner);
    assert schema[1].attributes[1..] == [] && inner.attributes[1..] == [];
    assert AttributeItems(opts, [], schema[1].attributes, inner.attributes).Some?;
    hide Wrap, Led, AttributeItems;
    assert ElementItems(schema, opts, [], inner, rule, TOP).Some?;
    var e := ElementItems(schema, opts, [], inner, rule, TOP).value;
    assert ListItems(schema, opts, e.used, rule, [], TOP).Some?;
    var w := ListItems(schema, opts, [], rule, [inner], TOP);
    assert w.Some?;
    assert ChildItems(schema, opts, w.value.used, [], [], TOP).Some?;
    assert ChildItems(schema, opts, [], schema[0].elements, o.fields, TOP).Some?;
    assert !ListPlain(schema, 1, [inner]);
    assert !AllPlain(schema, schema[0].elements, o.fields);
  }

  lemma StateFrames(g: P.Setting, st: P.State)
    requires P.StateOk(g, st)
    ensures StackOk(g.schema, st.frames) && st.frames != []
  {
  }

  function RootFilled(schema: Schema, root: nat, o: Obj): Obj
    requires root < |schema| && Shaped(schema, root, o)
  {
    Obj(Blank(schema[root]).attributes, "", Filled(schema, root, o).fields)
  }

  lemma RootRuns(g: P.Setting, opts: Options, root: nat, o: Obj, st: P.State)
    requires SchemaOk(g.schema) && OptionsOk(opts) && root < |g.schema| && Shaped(g.schema, root, o) && P.StateOk(g, st)
    requires st == P.State([P.DOCUMENT], [RootFrame(g.schema, root)])
    requires ChildItems(g.schema, opts, [], g.schema[root].elements, o.fields, TOP).Some?
    requires Apart(ChildItems(g.schema, opts, [], g.schema[root].elements, o.fields, TOP).value.used)
    requires AllLiteral(g.schema, g.schema[root].elements, o.fields)
    ensures Run(g, st, ChildItems(g.schema, opts, [], g.schema[root].elements, o.fields, TOP).value.items)
         == Some(WithTop(st, RootFrame(g.schema, root).(element := Some(RootFilled(g.schema, root, o)))))
  {
    hide OptionsOk, ChildItems, StackOk, Run, AllShaped, AllFilled, Apart, AllLiteral;
    var rules := g.schema[root].elements;
    var f := Top(st);
    assert rules[0..] == rules;
    ChildrenRun(g, opts, [], rules, o.fields, TOP, st, root, 0, []);
    assert f.element.value.fields[..0] + AllFilled(g.schema, rules, o.fields) == AllFilled(g.schema, rules, o.fields);
  }

  lemma RootEnds(g: P.Setting, opts: Options, root: nat, o: Obj, st: P.State)
    requires SchemaOk(g.schema) && OptionsOk(opts) && root < |g.schema| && Shaped(g.schema, root, o)
    requires st == P.State([P.DOCUMENT], [RootFrame(g.schema, root)])
    requires ChildItems(g.schema, opts, [], g.schema[root].elements, o.fields, TOP).Some?
    requires StackOk(g.schema, WithTop(st, RootFrame(g.schema, root).(element := Some(RootFilled(g.schema, root, o)))).frames)
    ensures var st1 := WithTop(st, RootFrame(g.schema, root).(element := Some(RootFilled(g.schema, root, o))));
            Finished(g.schema, g.validate, st1.frames) == Some(Some(RootFilled(g.schema, root, o)))
  {
    hide OptionsOk, ChildItems, AllShaped, AllFilled, Cardinal;
    var rules := g.schema[root].elements;
    RulesIn(g.schema, root, 0, rules);
    CountsAgree(g.schema, opts, [], rules, o.fields, TOP);
    FilledLengths(g.schema, rules, o.fields);
  }

  /** Where parsing starts. */
  function Start(g: P.Setting, root: nat): (st: P.State)
    requires root < |g.schema|
    ensures P.StateOk(g, st)
  {
    P.RootOk(g, root);
    P.State([P.DOCUMENT], [RootFrame(g.schema, root)])
  }

  /** Nothing asks whether elements are still open. A document broken off behind any of its pieces is accepted exactly
      when the innermost element still open has the children its rules demand, and then that element is the result. */
  lemma BrokenOffIff(g: P.Setting, root: nat, items: seq<Item>, k: nat)
    requires root < |g.schema| && ItemsOk(items) && k <= |items|
    requires Run(g, Start(g, root), items).Some?
    ensures Run(g, Start(g, root), items[..k]).Some?
    ensures var inner, r := Top(Run(g, Start(g, root), items[..k]).value), P.Parsed(g, root, Print(items[..k]));
            && (r.Some? <==> Validates(g.schema, g.validate, inner))
            && (r.Some? ==> r.value == inner.element)
  {
    hide Run, P.Parse, P.StateOk, Print, ItemsOk, StackOk, Validates;
    var st, front := Start(g, root), items[..k];
    assert items == front + items[k..];
    RunAppend(g, st, front, items[k..]);
    FrontOk(items, k);
    var s := Print(front);
    assert s[0..] == s + [];
    ItemsBack(g, s, 0, st, front, []);
    assert s[|s|..] == [];
    var st1 := Run(g, st, front).value;
    ParseTail(g, s, |s|, st1);
    StateFrames(g, st1);
  }

  lemma FrontOk(items: seq<Item>, k: nat)
    requires ItemsOk(items) && k <= |items|
    ensures ItemsOk(items[..k])
  {
    hide Printable, IsWhite;
  }

  /** A document may end with elements open: here one without a rule, so there is not even an object. */
  lemma OpenElementAccepted(validate: bool)
    ensures P.Parsed(P.Setting([RuleSet([], [], false)], validate), 0, "<a>") == Some(None)
  {
    hide Run, P.Parsed, P.StateOk, Print, ItemsOk, P.Step, Printable;
    var g := P.Setting([RuleSet([], [], false)], validate);
    var open := Item("", Open(None, "a", [], false));
    OpenPrints(open);
    RunOne(g, Start(g, 0), open);
    OpenUnknown(g, Start(g, 0), open);
    assert [open][..1] == [open];
    BrokenOffIff(g, 0, [open], 1);
  }

  lemma OpenPrints(open: Item)
    requires open == Item("", Open(None, "a", [], false))
    ensures ItemsOk([open]) && Print([open]) == "<a>"
  {
    LetterIsName();
    NoSpace();
    OneIff(open);
    PrintOne(open);
    assert PrintMarkup(open.markup) == "<" + ("a" + ("" + ">"));
  }

  lemma OpenUnknown(g: P.Setting, st: P.State, open: Item)
    requires g.schema == [RuleSet([], [], false)] && st == P.State([P.DOCUMENT], [RootFrame(g.schema, 0)]) && P.StateOk(g, st)
    requires open == Item("", Open(None, "a", [], false))
    ensures var r := P.Step(g, st, TokenOf(open.markup));
            r.Some? && P.StateOk(g, r.value) && Top(r.value).element == None && Validates(g.schema, g.validate, Top(r.value))
  {
    P.StepKeeps(g, st, TokenOf(open.markup));
  }

  lemma LetterIsName()
    ensures IsName("a")
  {
  }

  // ------------------------------------------------------------------ what the writer accepts

  /** Nothing required is missing: every required attribute is there, at any depth, and every rule has as many elements as it
      asks for. */
  predicate Complete(schema: Schema, r: nat, o: Obj)
    requires r < |schema| && Shaped(schema, r, o)
    decreases o
  {
    && (forall k :: 0 <= k < |o.attributes| && schema[r].attributes[k].required ==> o.attributes[k].Some?)
    && AllComplete(schema, schema[r].elements, o.fields)
  }

  predicate AllComplete(schema: Schema, rules: seq<ElementRule>, fs: seq<Field>)
    requires AllShaped(schema, rules, fs)
    decreases fs
  {
    fs != [] ==>
      && (rules[0].min > 0 ==> fs[0].items != [])
      && (rules[0].many ==> rules[0].min <= |fs[0].items| && (rules[0].max.Some? ==> |fs[0].items| <= rules[0].max.value))
      && ListComplete(schema, rules[0].rules, fs[0].items) && AllComplete(schema, rules[1..], fs[1..])
  }

  predicate ListComplete(schema: Schema, r: nat, items: seq<Obj>)
    requires r < |schema| && ListShaped(schema, r, items)
    decreases items
  {
    items != [] ==> Complete(schema, r, items[0]) && ListComplete(schema, r, items[1..])
  }

  lemma {:induction false} AttributesWrittenIff(opts: Options, used: seq<Binding>, rules: seq<AttributeRule>, values: seq<Option<string>>)
    requires |rules| == |values|
    ensures AttributeItems(opts, used, rules, values).Some? <==> forall k :: 0 <= k < |values| && rules[k].required ==> values[k].Some?
    decreases |rules|
  {
    hide EncodeEntities, PrefixFor, Named;
    if rules != [] {
      var more := if Writes(rules[0], values[0]) then Named(opts, used, rules[0].ns) else used;
      AttributesWrittenIff(opts, more, rules[1..], values[1..]);
      assert (forall k :: 0 <= k < |values| && rules[k].required ==> values[k].Some?) <==>
             (rules[0].required ==> values[0].Some?) && forall k :: 0 <= k < |values[1..]| && rules[1..][k].required ==> values[1..][k].Some?
        by {
          assert forall k :: 1 <= k < |values| ==> rules[k] == rules[1..][k - 1] && values[k] == values[1..][k - 1];
        }
    }
  }

  lemma {:induction false} ElementWrittenIff(schema: Schema, opts: Options, used: seq<Binding>, o: Obj, rule: ElementRule, at: Place)
    requires rule.rules < |schema| && Shaped(schema, rule.rules, o)
    ensures ElementItems(schema, opts, used, o, rule, at).Some? <==> Complete(schema, rule.rules, o)
    decreases o
  {
    hide Wrap, TagAttrs, PrefixFor, Named, AttributeItems;
    var rules := schema[rule.rules];
    AttributesWrittenIff(opts, used, rules.attributes, o.attributes);
    var a := AttributeItems(opts, used, rules.attributes, o.attributes);
    if a.Some? { ChildrenWrittenIff(schema, opts, a.value.used, rules.elements, o.fields, Below(opts, at, rule.ns)); }
  }

  lemma {:induction false} ChildrenWrittenIff(schema: Schema, opts: Options, used: seq<Binding>, rules: seq<ElementRule>, fs: seq<Field>,
                                              at: Place)
    requires AllShaped(schema, rules, fs)
    ensures ChildItems(schema, opts, used, rules, fs, at).Some? <==> AllComplete(schema, rules, fs)
    decreases fs
  {
    hide ListItems;
    if fs != [] && Counted(rules[0], |fs[0].items|) {
      ListWrittenIff(schema, opts, used, rules[0], fs[0].items, at);
      var w := ListItems(schema, opts, used, rules[0], fs[0].items, at);
      if w.Some? { ChildrenWrittenIff(schema, opts, w.value.used, rules[1..], fs[1..], at); }
    }
  }

  lemma {:induction false} ListWrittenIff(schema: Schema, opts: Options, used: seq<Binding>, rule: ElementRule, items: seq<Obj>, at: Place)
    requires rule.rules < |schema| && ListShaped(schema, rule.rules, items)
    ensures ListItems(schema, opts, used, rule, items, at).Some? <==> ListComplete(schema, rule.rules, items)
    decreases items
  {
    hide ElementItems, Led;
    if items != [] {
      ElementWrittenIff(schema, opts, used, items[0], rule, at);
      var w := ElementItems(schema, opts, used, items[0], rule, at);
      if w.Some? { ListWrittenIff(schema, opts, w.value.used, rule, items[1..], at); }
    }
  }

  /** The writer refuses an object exactly when something required is missing or there is too much of something, anywhere in it. */
  lemma WrittenIff(schema: Schema, opts: Options, root: nat, o: Obj)
    requires root < |schema| && Shaped(schema, root, o)
    ensures Document(schema, opts, [], root, o).Some? <==> AllComplete(schema, schema[root].elements, o.fields)
  {
    hide ChildItems, Unled, AllComplete;
    ChildrenWrittenIff(schema, opts, [], schema[root].elements, o.fields, TOP);
  }
}
