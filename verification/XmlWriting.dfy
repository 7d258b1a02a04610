/** The XML writer: an object and its rules become a document. */
module XmlWriting {
  import opened Wrappers
  import opened Strings
  import opened XmlText
  import opened XmlRules

  datatype Options = Options(indent: string, newline: string, prefixMap: map<string, string>, declaration: bool)

  /** An attribute as it is printed. */
  datatype RawAttr = RawAttr(prefix: Option<string>, local: string, raw: string)

  /** A piece of markup; a document is a list of them, each behind some white space. */
  datatype Markup =
    | Instruction
    | Open(prefix: Option<string>, local: string, attrs: seq<RawAttr>, closed: bool)
    | Close(prefix: Option<string>, local: string)
    | Section(text: string)

  datatype Item = Item(space: string, markup: Markup)

  function PrintName(prefix: Option<string>, local: string): string
  {
    match prefix case None => local case Some(p) => p + ":" + local
  }

  function PrintAttr(a: RawAttr): string
  {
    " " + PrintName(a.prefix, a.local) + "=\"" + a.raw + "\""
  }

  function PrintAttrs(attrs: seq<RawAttr>): string
  {
    if attrs == [] then [] else PrintAttr(attrs[0]) + PrintAttrs(attrs[1..])
  }

  function TagClosing(closed: bool): string
  {
    if closed then "/>" else ">"
  }

  function PrintMarkup(m: Markup): string
  {
    match m
    case Instruction => "<?xml version=\"1.0\"?>"
    case Open(prefix, local, attrs, closed) =>
      "<" + (PrintName(prefix, local) + (PrintAttrs(attrs) + TagClosing(closed)))
    case Close(prefix, local) => "</" + PrintName(prefix, local) + ">"
    case Section(text) => SectionText(text)
  }

  function Print(items: seq<Item>): string
  {
    if items == [] then [] else items[0].space + PrintMarkup(items[0].markup) + Print(items[1..])
  }

  // ------------------------------------------------------------------ prefixes

  /** A prefix in use for a namespace; the list keeps the order in which they were taken. */
  datatype Binding = Binding(uri: string, prefix: string)

  function PrefixOf(used: seq<Binding>, uri: string): Option<string>
  {
    if used == [] then None else if used[0].uri == uri then Some(used[0].prefix) else PrefixOf(used[1..], uri)
  }

  function Digit36(n: nat): char
    requires n < 36
  {
    "0123456789abcdefghijklmnopqrstuvwxyz"[n]
  }

  /** `toString(36)`. */
  function Base36(n: nat): string
  {
    if n < 36 then [Digit36(n)] else Base36(n / 36) + [Digit36(n % 36)]
  }

  function NewPrefix(opts: Options, used: seq<Binding>, uri: string): string
  {
    if uri in opts.prefixMap then opts.prefixMap[uri] else "ns_" + Base36(|used| + 1)
  }

  function Bound(opts: Options, used: seq<Binding>, uri: string): seq<Binding>
  {
    if PrefixOf(used, uri).Some? then used else used + [Binding(uri, NewPrefix(opts, used, uri))]
  }

  predicate NoNamespace(ns: Option<string>)
  {
    ns.None? || ns.value == ""
  }

  /** The bindings once a name of this namespace has been written. */
  function Named(opts: Options, used: seq<Binding>, ns: Option<string>): seq<Binding>
  {
    if NoNamespace(ns) then used else Bound(opts, used, ns.value)
  }

  /** The prefix such a name has then. */
  function PrefixFor(opts: Options, used: seq<Binding>, ns: Option<string>): Option<string>
  {
    if NoNamespace(ns) then None else PrefixOf(Named(opts, used, ns), ns.value)
  }

  // ------------------------------------------------------------------ the document as a list

  datatype Attrs = Attrs(attrs: seq<RawAttr>, used: seq<Binding>)

  /** The attributes that are present and not at their default; a required one must be present. */
  function AttributeItems(opts: Options, used: seq<Binding>, rules: seq<AttributeRule>, values: seq<Option<string>>): Option<Attrs>
    requires |rules| == |values|
    decreases |rules|
  {
    if rules == [] then Some(Attrs([], used))
    else if values[0].None? then
      if rules[0].required then None else AttributeItems(opts, used, rules[1..], values[1..])
    else if values[0] == rules[0].default then AttributeItems(opts, used, rules[1..], values[1..])
    else
      BeforeAttrs([RawAttr(PrefixFor(opts, used, rules[0].ns), rules[0].local, EncodeEntities(values[0].value))],
                  AttributeItems(opts, Named(opts, used, rules[0].ns), rules[1..], values[1..]))
  }

  function BeforeAttrs(attrs: seq<RawAttr>, r: Option<Attrs>): Option<Attrs>
  {
    match r case None => None case Some(a) => Some(Attrs(attrs + a.attrs, a.used))
  }

  datatype Written = Written(items: seq<Item>, used: seq<Binding>)

  function BeforeItems(items: seq<Item>, r: Option<Written>): Option<Written>
  {
    match r case None => None case Some(w) => Some(Written(items + w.items, w.used))
  }

  /** Where an element stands: how deep, in which default namespace, and behind what indentation. */
  datatype Place = Place(depth: nat, xmlns: Option<string>, indent: string)

  /** The default namespace changes when moving to or from no namespace. */
  predicate Redeclares(xmlns: Option<string>, ns: Option<string>)
  {
    xmlns != ns && (xmlns.None? || NoNamespace(ns))
  }

  function ScopeOf(xmlns: Option<string>, ns: Option<string>): Option<string>
  {
    if Redeclares(xmlns, ns) then ns else xmlns
  }

  function Declaration(xmlns: Option<string>, ns: Option<string>): seq<RawAttr>
  {
    if Redeclares(xmlns, ns) then [RawAttr(None, "xmlns", NsText(ns))] else []
  }

  function Declarations(used: seq<Binding>): seq<RawAttr>
  {
    if used == [] then [] else [RawAttr(Some("xmlns"), used[0].prefix, used[0].uri)] + Declarations(used[1..])
  }

  function Led(lead: string, items: seq<Item>): seq<Item>
  {
    if items == [] then [] else [Item(lead + items[0].space, items[0].markup)] + items[1..]
  }

  function SectionItems(sections: seq<string>): seq<Item>
  {
    if sections == [] then [] else [Item("", Section(sections[0]))] + SectionItems(sections[1..])
  }

  function TextItems(text: string, lead: string): seq<Item>
  {
    if text == "" then [] else Led(lead, SectionItems(Sections(Split(text), "")))
  }

  /** Start tag, text, children and end tag. */
  function Wrap(opts: Options, indent: string, prefix: Option<string>, local: string, attrs: seq<RawAttr>, text: string,
                kids: seq<Item>): seq<Item>
  {
    if kids != [] then
      [Item(indent, Open(prefix, local, attrs, false))]
      + (TextItems(text, opts.newline + (indent + opts.indent)) + (kids + [Item(opts.newline + indent, Close(prefix, local))]))
    else if text != "" then
      [Item(indent, Open(prefix, local, attrs, false))] + (TextItems(text, "") + [Item("", Close(prefix, local))])
    else [Item(indent, Open(prefix, local, attrs, true))]
  }

  function Below(opts: Options, at: Place, ns: Option<string>): Place
  {
    Place(at.depth + 1, ScopeOf(at.xmlns, ns), at.indent + opts.indent)
  }

  /** The attributes of a start tag: namespace declarations first, all prefixes in use on a document element. */
  function TagAttrs(at: Place, ns: Option<string>, used: seq<Binding>, attrs: seq<RawAttr>): seq<RawAttr>
  {
    Declaration(at.xmlns, ns) + ((if at.depth == 0 then Declarations(used) else []) + attrs)
  }

  function ElementItems(schema: Schema, opts: Options, used: seq<Binding>, o: Obj, rule: ElementRule, at: Place): Option<Written>
    requires rule.rules < |schema| && Shaped(schema, rule.rules, o)
    decreases o
  {
    var rules := schema[rule.rules];
    match AttributeItems(opts, used, rules.attributes, o.attributes)
    case None => None
    case Some(a) =>
      match ChildItems(schema, opts, a.used, rules.elements, o.fields, Below(opts, at, rule.ns))
      case None => None
      case Some(c) =>
        var plain := rule.ns == ScopeOf(at.xmlns, rule.ns);
        Some(Written(
          Wrap(opts, at.indent, if plain then None else PrefixFor(opts, c.used, rule.ns), rule.local,
               TagAttrs(at, rule.ns, c.used, a.attrs), o.text, c.items),
          if plain then c.used else Named(opts, c.used, rule.ns)))
  }

  /** The numbers of elements a rule allows. */
  predicate Counted(rule: ElementRule, n: nat)
  {
    if rule.many then rule.min <= n && (rule.max.Some? ==> n <= rule.max.value) else n > 0 || rule.min == 0
  }

  /** The child elements, rule by rule, each on a new line. */
  function ChildItems(schema: Schema, opts: Options, used: seq<Binding>, rules: seq<ElementRule>, fs: seq<Field>, at: Place): Option<Written>
    requires AllShaped(schema, rules, fs)
    decreases fs
  {
    if fs == [] then Some(Written([], used))
    else if !Counted(rules[0], |fs[0].items|) then None
    else
      match ListItems(schema, opts, used, rules[0], fs[0].items, at)
      case None => None
      case Some(w) => BeforeItems(w.items, ChildItems(schema, opts, w.used, rules[1..], fs[1..], at))
  }

  function ListItems(schema: Schema, opts: Options, used: seq<Binding>, rule: ElementRule, items: seq<Obj>, at: Place): Option<Written>
    requires rule.rules < |schema| && ListShaped(schema, rule.rules, items)
    decreases items
  {
    if items == [] then Some(Written([], used))
    else
      match ElementItems(schema, opts, used, items[0], rule, at)
      case None => None
      case Some(w) => BeforeItems(Led(opts.newline, w.items), ListItems(schema, opts, w.used, rule, items[1..], at))
  }

  const TOP := Place(0, None, "")

  /** The children as text: the first one without the line break in front. */
  function Unled(opts: Options, items: seq<Item>): string
  {
    if items == [] || |Print(items)| < |opts.newline| then [] else Print(items)[|opts.newline|..]
  }

  function Document(schema: Schema, opts: Options, used: seq<Binding>, root: nat, o: Obj): Option<string>
    requires root < |schema| && Shaped(schema, root, o)
  {
    match ChildItems(schema, opts, used, schema[root].elements, o.fields, TOP)
    case None => None
    case Some(w) => Some((if opts.declaration then PrintMarkup(Instruction) + opts.newline else "") + Unled(opts, w.items))
  }

  // ------------------------------------------------------------------ printing

  lemma {:induction false} PrintAppend(a: seq<Item>, b: seq<Item>)
    ensures Print(a + b) == Print(a) + Print(b)
  {
    hide PrintMarkup;
    if a == [] {
      assert a + b == b;
    } else {
      PrintAppend(a[1..], b);
      assert (a + b)[0] == a[0] && (a + b)[1..] == a[1..] + b;
      Associates(a[0].space + PrintMarkup(a[0].markup), Print(a[1..]), Print(b));
    }
  }

  lemma Associates(a: string, b: string, c: string)
    ensures (a + b) + c == a + (b + c)
  {
  }

  lemma PrintOne(i: Item)
    ensures Print([i]) == i.space + PrintMarkup(i.markup)
  {
    hide PrintMarkup;
    assert [i][1..] == [];
    assert Print([i]) == i.space + PrintMarkup(i.markup) + Print([]);
  }

  lemma PrintLed(lead: string, items: seq<Item>)
    requires items != []
    ensures Print(Led(lead, items)) == lead + Print(items)
  {
    hide PrintMarkup;
    assert Led(lead, items)[1..] == items[1..];
  }

  lemma {:induction false} PrintSections(sections: seq<string>)
    ensures Print(SectionItems(sections)) == SectionBytes(sections)
  {
    hide SectionText;
    if sections != [] {
      PrintSections(sections[1..]);
      assert SectionItems(sections)[1..] == SectionItems(sections[1..]);
    }
  }

  lemma PrintText(text: string, lead: string)
    ensures Print(TextItems(text, lead)) == if text == "" then "" else lead + CData(text)
  {
    if text != "" {
      hide Print, Split, Join;
      var sections := Sections(Split(text), "");
      PrintSections(sections);
      CDataIsSections(Split(text), "");
      assert CDATA_START + "" == CDATA_START;
      PrintLed(lead, SectionItems(sections));
    }
  }

  lemma {:induction false} PrintAttrsAppend(a: seq<RawAttr>, b: seq<RawAttr>)
    ensures PrintAttrs(a + b) == PrintAttrs(a) + PrintAttrs(b)
  {
    hide PrintAttr;
    if a == [] {
      assert a + b == b;
    } else {
      PrintAttrsAppend(a[1..], b);
      assert (a + b)[0] == a[0] && (a + b)[1..] == a[1..] + b;
      Associates(PrintAttr(a[0]), PrintAttrs(a[1..]), PrintAttrs(b));
    }
  }

  lemma PrintOneAttr(a: RawAttr)
    ensures PrintAttrs([a]) == PrintAttr(a)
  {
    hide PrintAttr;
    assert [a][1..] == [];
    assert PrintAttrs([a]) == PrintAttr(a) + PrintAttrs([]);
  }

  /** What the writer appends piece by piece. */
  function Assembled(opts: Options, indent: string, name: string, attributes: string, text: string, children: string): string
  {
    var head := indent + "<" + name + attributes;
    if children != "" then
      head + ">" + (if text != "" then opts.newline + (indent + opts.indent) + text else "") + (opts.newline + children)
      + (opts.newline + indent + "</" + name + ">")
    else if text != "" then head + (">" + text + "</" + name + ">")
    else head + "/>"
  }

  lemma OpenPrinted(indent: string, prefix: Option<string>, local: string, attrs: seq<RawAttr>, closed: bool)
    ensures Print([Item(indent, Open(prefix, local, attrs, closed))])
         == indent + "<" + PrintName(prefix, local) + PrintAttrs(attrs) + (if closed then "/>" else ">")
  {
    hide PrintName, PrintAttrs, Print;
    PrintOne(Item(indent, Open(prefix, local, attrs, closed)));
    var end := if closed then "/>" else ">";
    Four(indent, "<", PrintName(prefix, local), PrintAttrs(attrs), end);
  }

  lemma Four(a: string, b: string, c: string, d: string, e: string)
    ensures a + (b + (c + (d + e))) == a + b + c + d + e
  {
  }

  lemma ClosePrinted(space: string, prefix: Option<string>, local: string)
    ensures Print([Item(space, Close(prefix, local))]) == space + "</" + PrintName(prefix, local) + ">"
  {
    hide PrintName, Print;
    PrintOne(Item(space, Close(prefix, local)));
    Three(space, "</", PrintName(prefix, local), ">");
  }

  lemma Three(a: string, b: string, c: string, d: string)
    ensures a + (b + c + d) == a + b + c + d
  {
  }

  /** The list of an element prints as what the writer appends. */
  lemma PrintWrap(opts: Options, indent: string, prefix: Option<string>, local: string, attrs: seq<RawAttr>, text: string,
                  kids: seq<Item>, children: string)
    requires TextIs(opts.newline, kids, children)
    ensures Print(Wrap(opts, indent, prefix, local, attrs, text, kids))
         == Assembled(opts, indent, PrintName(prefix, local), PrintAttrs(attrs), if text != "" then CData(text) else "", children)
  {
    hide Print, CData, Split, PrintName, PrintAttrs, TextItems, PrintMarkup;
    CDataNonempty(text);
    var q, a, nl := PrintName(prefix, local), PrintAttrs(attrs), opts.newline;
    var open := [Item(indent, Open(prefix, local, attrs, false))];
    OpenPrinted(indent, prefix, local, attrs, false);
    OpenPrinted(indent, prefix, local, attrs, true);
    var head := indent + "<" + q + a;
    if kids != [] {
      var texts, end := TextItems(text, nl + (indent + opts.indent)), [Item(nl + indent, Close(prefix, local))];
      PrintText(text, nl + (indent + opts.indent));
      ClosePrinted(nl + indent, prefix, local);
      PrintAppend(open, texts + (kids + end));
      PrintAppend(texts, kids + end);
      PrintAppend(kids, end);
      Five(head + ">", Print(texts), nl + children, nl + indent + "</" + q + ">");
    } else if text != "" {
      var texts, end := TextItems(text, ""), [Item("", Close(prefix, local))];
      PrintText(text, "");
      ClosePrinted("", prefix, local);
      PrintAppend(open, texts + end);
      PrintAppend(texts, end);
      Six(head, CData(text), q);
    }
  }

  lemma Five(a: string, b: string, c: string, d: string)
    ensures a + (b + (c + d)) == a + b + c + d
  {
  }

  lemma Six(head: string, text: string, q: string)
    ensures head + ">" + ("" + text + ("" + "</" + q + ">")) == head + (">" + text + "</" + q + ">")
  {
  }

  lemma WrapNonempty(opts: Options, indent: string, prefix: Option<string>, local: string, attrs: seq<RawAttr>, text: string,
                     kids: seq<Item>)
    ensures Wrap(opts, indent, prefix, local, attrs, text, kids) != []
  {
  }

  // ------------------------------------------------------------------ the writer

  class XmlWriter {
    const schema: Schema
    const root: nat
    const opts: Options
    var used: seq<Binding>

    constructor (schema: Schema, root: nat, opts: Options)
      ensures this.schema == schema && this.root == root && this.opts == opts && used == []
    {
      this.schema := schema;
      this.root := root;
      this.opts := opts;
      used := [];
    }

    method Stringify(o: Obj) returns (str: Option<string>)
      requires root < |schema| && Shaped(schema, root, o)
      modifies this`used
      ensures str == Document(schema, opts, old(used), root, o)
      ensures str.Some? ==> used == []
    {
      hide Print, PrintMarkup, ChildItems;
      var head := if opts.declaration then PrintMarkup(Instruction) + opts.newline else "";
      var children := StringifyChildren(schema[root].elements, o.fields, TOP);
      if children.None? { return None; }
      TextIsUnled(opts, ChildItems(schema, opts, old(used), schema[root].elements, o.fields, TOP).value.items, children.value);
      used := [];
      return Some(head + children.value);
    }

    method QName(local: string, ns: Option<string>) returns (name: string)
      modifies this`used
      ensures used == Named(opts, old(used), ns) && name == PrintName(PrefixFor(opts, old(used), ns), local)
    {
      if NoNamespace(ns) { return local; }
      var prefix := PrefixOf(used, ns.value);
      if prefix.None? {
        var p := if ns.value in opts.prefixMap then opts.prefixMap[ns.value] else "ns_" + Base36(|used| + 1);
        BoundIs(used, Binding(ns.value, p));
        used := used + [Binding(ns.value, p)];
        prefix := Some(p);
      }
      return prefix.value + ":" + local;
    }

    method StringifyElement(o: Obj, rule: ElementRule, at: Place) returns (str: Option<string>)
      requires rule.rules < |schema| && Shaped(schema, rule.rules, o)
      modifies this`used
      ensures var w := ElementItems(schema, opts, old(used), o, rule, at);
              && (str.Some? <==> w.Some?)
              && (w.Some? ==> w.value.items != [] && str.value == Print(w.value.items) && used == w.value.used)
      decreases o
    {
      hide Print, PrintAttrs, AttributeItems, ChildItems, PrintName, CData, Wrap, AllShaped, ElementItems, TagAttrs, Assembled,
           TextIs, Named, PrefixFor;
      var rules := schema[rule.rules];
      var xmlns := at.xmlns;
      var namespaces := "";
      if xmlns != rule.ns && (xmlns.None? || NoNamespace(rule.ns)) {
        xmlns := rule.ns;
        namespaces := " xmlns=\"" + NsText(rule.ns) + "\"";
      }
      var childState := Place(at.depth + 1, xmlns, at.indent + opts.indent);
      ghost var a := AttributeItems(opts, used, rules.attributes, o.attributes);
      ElementIs(schema, opts, used, o, rule, at);
      var attributes := StringifyAttributes(rules.attributes, o.attributes);
      if attributes.None? { return None; }
      ghost var c := ChildItems(schema, opts, used, rules.elements, o.fields, childState);
      var children := StringifyChildren(rules.elements, o.fields, childState);
      if children.None? { return None; }
      var text := if rules.characters && o.text != "" then CData(o.text) else "";
      var declared := "";
      if at.depth == 0 {
        declared := DeclareAll();
      }
      PrintTag(at, rule.ns, used, a.value.attrs);
      Regrouped(namespaces, declared, attributes.value);
      var name := rule.local;
      if rule.ns != xmlns {
        name := QName(rule.local, rule.ns);
      } else {
        Unprefixed(rule.local);
      }
      ghost var prefix := if rule.ns == xmlns then None else PrefixFor(opts, c.value.used, rule.ns);
      ghost var tag := TagAttrs(at, rule.ns, c.value.used, a.value.attrs);
      PrintWrap(opts, at.indent, prefix, rule.local, tag, o.text, c.value.items, children.value);
      WrapNonempty(opts, at.indent, prefix, rule.local, tag, o.text, c.value.items);
      var element := Assemble(at.indent, name, namespaces + declared + attributes.value, text, children.value);
      str := Some(element);
    }

    /** Appends the parts of an element. */
    method Assemble(indent: string, name: string, attributes: string, text: string, children: string) returns (str: string)
      ensures str == Assembled(opts, indent, name, attributes, text, children)
    {
      str := indent + "<" + name + attributes;
      if children != "" {
        str := str + ">";
        if text != "" { str := str + (opts.newline + (indent + opts.indent) + text); }
        str := str + (opts.newline + children);
        str := str + (opts.newline + indent + "</" + name + ">");
      } else if text != "" {
        str := str + (">" + text + "</" + name + ">");
      } else {
        str := str + "/>";
      }
    }

    /** The declarations of all prefixes in use. */
    method DeclareAll() returns (str: string)
      ensures str == PrintAttrs(Declarations(used))
    {
      hide PrintAttr;
      str := "";
      for i := 0 to |used|
        invariant str + PrintAttrs(Declarations(used[i..])) == PrintAttrs(Declarations(used))
      {
        assert used[i..][1..] == used[i + 1..];
        var b := used[i];
        var attr := RawAttr(Some("xmlns"), b.prefix, b.uri);
        assert Declarations(used[i..])[1..] == Declarations(used[i + 1..]);
        assert (str + PrintAttr(attr)) + PrintAttrs(Declarations(used[i + 1..])) == str + (PrintAttr(attr) + PrintAttrs(Declarations(used[i + 1..])));
        str := str + PrintAttr(attr);
      }
      assert str + [] == str;
    }

    method StringifyAttributes(rules: seq<AttributeRule>, values: seq<Option<string>>) returns (str: Option<string>)
      requires |rules| == |values|
      modifies this`used
      ensures var a := AttributeItems(opts, old(used), rules, values);
              && (str.Some? <==> a.Some?)
              && (a.Some? ==> str.value == PrintAttrs(a.value.attrs) && used == a.value.used)
    {
      hide PrintAttrs, PrintAttr, PrintName, EncodeEntities, PrefixFor, Named;
      var text := "";
      ghost var done: seq<RawAttr> := [];
      NoAttrs(AttributeItems(opts, used, rules, values));
      for i := 0 to |rules|
        invariant text == PrintAttrs(done)
        invariant AttributeItems(opts, old(used), rules, values)
               == BeforeAttrs(done, AttributeItems(opts, used, rules[i..], values[i..]))
      {
        assert rules[i..][1..] == rules[i + 1..] && values[i..][1..] == values[i + 1..];
        var rule := rules[i];
        if values[i].Some? {
          if values[i] != rule.default {
            ghost var attr := RawAttr(PrefixFor(opts, used, rule.ns), rule.local, EncodeEntities(values[i].value));
            PrintAttrsAppend(done, [attr]);
            PrintOneAttr(attr);
            var name := QName(rule.local, rule.ns);
            PrintAttrIs(attr, name);
            text := text + (" " + name + "=\"" + EncodeEntities(values[i].value) + "\"");
            AttrsTwice(done, [attr], AttributeItems(opts, used, rules[i + 1..], values[i + 1..]));
            done := done + [attr];
          }
        } else if rule.required {
          return None;
        }
      }
      assert done + [] == done;
      return Some(text);
    }

    method StringifyChildren(rules: seq<ElementRule>, fs: seq<Field>, at: Place) returns (str: Option<string>)
      requires AllShaped(schema, rules, fs)
      modifies this`used
      ensures var w := ChildItems(schema, opts, old(used), rules, fs, at);
              && (str.Some? <==> w.Some?)
              && (w.Some? ==> TextIs(opts.newline, w.value.items, str.value) && used == w.value.used)
      decreases fs, 1
    {
      hide ElementItems, ListItems, TextIs, Counted, ListShaped;
      var text := "";
      ghost var done: seq<Item> := [];
      NoItems(ChildItems(schema, opts, used, rules, fs, at), opts.newline);
      for k := 0 to |rules|
        invariant AllShaped(schema, rules[k..], fs[k..]) && |fs| == |rules|
        invariant TextIs(opts.newline, done, text)
        invariant ChildItems(schema, opts, old(used), rules, fs, at)
               == BeforeItems(done, ChildItems(schema, opts, used, rules[k..], fs[k..], at))
      {
        assert rules[k..][1..] == rules[k + 1..] && fs[k..][1..] == fs[k + 1..];
        var rule, items := rules[k], fs[k].items;
        if !Counted(rule, |items|) { return None; }
        ghost var w := ListItems(schema, opts, used, rule, items, at);
        var more := StringifyList(rule, items, at, text, done);
        if more.None? { return None; }
        text := more.value;
        ItemsTwice(done, w.value.items, ChildItems(schema, opts, used, rules[k + 1..], fs[k + 1..], at));
        done := done + w.value.items;
      }
      assert done + [] == done;
      return Some(text);
    }

    /** The elements of one rule behind those before. */
    method StringifyList(rule: ElementRule, items: seq<Obj>, at: Place, before: string, ghost front: seq<Item>)
      returns (str: Option<string>)
      requires rule.rules < |schema| && ListShaped(schema, rule.rules, items)
      requires TextIs(opts.newline, front, before)
      modifies this`used
      ensures var w := ListItems(schema, opts, old(used), rule, items, at);
              && (str.Some? <==> w.Some?)
              && (w.Some? ==> TextIs(opts.newline, front + w.value.items, str.value) && used == w.value.used)
      decreases items, 0
    {
      hide ElementItems, TextIs, Led, Print, Shaped;
      var text := before;
      ghost var done: seq<Item> := [];
      NoItems(ListItems(schema, opts, used, rule, items, at), opts.newline);
      assert front + [] == front;
      for j := 0 to |items|
        invariant ListShaped(schema, rule.rules, items[j..])
        invariant TextIs(opts.newline, front + done, text)
        invariant ListItems(schema, opts, old(used), rule, items, at)
               == BeforeItems(done, ListItems(schema, opts, used, rule, items[j..], at))
      {
        assert items[j..][1..] == items[j + 1..];
        ghost var w := ElementItems(schema, opts, used, items[j], rule, at);
        var element := StringifyElement(items[j], rule, at);
        if element.None? { return None; }
        ghost var led := Led(opts.newline, w.value.items);
        OneMore(opts.newline, front + done, text, w.value.items);
        assert (front + done) + led == front + (done + led);
        if text != "" { text := text + opts.newline; }
        text := text + element.value;
        ItemsTwice(done, led, ListItems(schema, opts, used, rule, items[j + 1..], at));
        done := done + led;
      }
      assert done + [] == done;
      return Some(text);
    }
  }

  /** The printed items, without the line break in front of the first. */
  predicate TextIs(newline: string, items: seq<Item>, text: string)
  {
    if items == [] then text == "" else text != "" && newline + text == Print(items)
  }

  lemma TextIsUnled(opts: Options, items: seq<Item>, text: string)
    requires TextIs(opts.newline, items, text)
    ensures Unled(opts, items) == text
  {
    hide Print;
    if items != [] { assert (opts.newline + text)[|opts.newline|..] == text; }
  }

  lemma OneMore(newline: string, done: seq<Item>, text: string, items: seq<Item>)
    requires TextIs(newline, done, text) && items != []
    ensures TextIs(newline, done + Led(newline, items), (if text != "" then text + newline else text) + Print(items))
  {
    hide PrintMarkup, Led, Print;
    PrintLed(newline, items);
    PrintAppend(done, Led(newline, items));
    PrintNonempty(items);
    LedNonempty(newline, items);
    if done == [] {
      assert done + Led(newline, items) == Led(newline, items);
      assert "" + Print(items) == Print(items);
    } else {
      assert newline + (text + newline + Print(items)) == (newline + text) + (newline + Print(items));
    }
  }

  lemma LedNonempty(lead: string, items: seq<Item>)
    ensures Led(lead, items) == [] <==> items == []
  {
  }

  lemma PrintNonempty(items: seq<Item>)
    requires items != []
    ensures Print(items) != ""
  {
    MarkupNonempty(items[0].markup);
  }

  lemma MarkupNonempty(m: Markup)
    ensures PrintMarkup(m) != ""
  {
    hide PrintName, PrintAttrs;
  }

  lemma ItemsTwice(a: seq<Item>, b: seq<Item>, r: Option<Written>)
    ensures BeforeItems(a, BeforeItems(b, r)) == BeforeItems(a + b, r)
  {
    if r.Some? { assert a + (b + r.value.items) == (a + b) + r.value.items; }
  }

  lemma NoItems(r: Option<Written>, newline: string)
    ensures BeforeItems([], r) == r && TextIs(newline, [], "")
  {
    if r.Some? { assert [] + r.value.items == r.value.items; }
  }

  lemma CDataNonempty(text: string)
    ensures CData(text) != ""
  {
    hide Split, Join;
  }

  lemma ElementNonempty(schema: Schema, opts: Options, used: seq<Binding>, o: Obj, rule: ElementRule, at: Place)
    requires rule.rules < |schema| && Shaped(schema, rule.rules, o)
    ensures var w := ElementItems(schema, opts, used, o, rule, at); w.Some? ==> w.value.items != []
  {
    hide AttributeItems, ChildItems, TagAttrs;
  }

  /** The namespace part and the attribute part of a tag. */
  lemma PrintTag(at: Place, ns: Option<string>, used: seq<Binding>, attrs: seq<RawAttr>)
    ensures PrintAttrs(TagAttrs(at, ns, used, attrs))
         == (if Redeclares(at.xmlns, ns) then " xmlns=\"" + NsText(ns) + "\"" else "")
            + ((if at.depth == 0 then PrintAttrs(Declarations(used)) else "") + PrintAttrs(attrs))
  {
    hide PrintAttr, PrintAttrs, Declarations;
    NoAttrs(None);
    var d := Declaration(at.xmlns, ns);
    var all := if at.depth == 0 then Declarations(used) else [];
    PrintAttrsAppend(d, all + attrs);
    PrintAttrsAppend(all, attrs);
    if d != [] {
      PrintOneAttr(d[0]);
      PrintAttrIs(d[0], "xmlns");
    }
  }

  /** One element, from its attributes and its children. */
  lemma ElementIs(schema: Schema, opts: Options, used: seq<Binding>, o: Obj, rule: ElementRule, at: Place)
    requires rule.rules < |schema| && Shaped(schema, rule.rules, o)
    ensures var a := AttributeItems(opts, used, schema[rule.rules].attributes, o.attributes);
            var w := ElementItems(schema, opts, used, o, rule, at);
            if a.None? then w.None?
            else
              var c := ChildItems(schema, opts, a.value.used, schema[rule.rules].elements, o.fields, Below(opts, at, rule.ns));
              if c.None? then w.None?
              else
                var plain := rule.ns == ScopeOf(at.xmlns, rule.ns);
                w == Some(Written(
                  Wrap(opts, at.indent, if plain then None else PrefixFor(opts, c.value.used, rule.ns), rule.local,
                       TagAttrs(at, rule.ns, c.value.used, a.value.attrs), o.text, c.value.items),
                  if plain then c.value.used else Named(opts, c.value.used, rule.ns)))
  {
    hide AttributeItems, ChildItems, TagAttrs, Wrap, PrefixFor, Named;
  }

  lemma Regrouped(a: string, b: string, c: string)
    ensures a + (b + c) == a + b + c
  {
  }

  lemma Unprefixed(local: string)
    ensures PrintName(None, local) == local
  {
  }

  lemma PrintAttrIs(a: RawAttr, name: string)
    requires name == PrintName(a.prefix, a.local)
    ensures PrintAttr(a) == " " + name + "=\"" + a.raw + "\""
  {
  }

  lemma NoAttrs(r: Option<Attrs>)
    ensures r == BeforeAttrs([], r) && PrintAttrs([]) == ""
  {
    if r.Some? { assert [] + r.value.attrs == r.value.attrs; }
  }

  lemma AttrsTwice(a: seq<RawAttr>, b: seq<RawAttr>, r: Option<Attrs>)
    ensures BeforeAttrs(a, BeforeAttrs(b, r)) == BeforeAttrs(a + b, r)
  {
    if r.Some? { assert a + (b + r.value.attrs) == (a + b) + r.value.attrs; }
  }

  lemma {:induction false} BoundIs(used: seq<Binding>, b: Binding)
    ensures PrefixOf(used, b.uri).None? ==> PrefixOf(used + [b], b.uri) == Some(b.prefix)
  {
    if used != [] {
      BoundIs(used[1..], b);
      assert (used + [b])[1..] == used[1..] + [b];
    }
  }
}
