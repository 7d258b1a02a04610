/** What a document says under rules, read off its tree: the parser makes exactly that of it. */
module XmlMeaning {
  import opened Wrappers
  import opened Strings
  import T = XmlText
  import opened XmlRules
  import opened XmlHandling
  import P = XmlParsing
  import opened XmlGrammar
  import opened XmlRoundTrip
  import opened XmlTrees

  // ------------------------------------------------------------------ namespaces

  /** The namespaces in force at a place. */
  datatype Env = Env(default: Option<string>, prefixes: map<string, Option<string>>)

  const OUTSIDE := Env(None, map[])

  /** Inside a tag its declarations are in force too; one with an empty value takes a namespace away. */
  function Inside(env: Env, attrs: seq<Attr>): Env
  {
    if attrs == [] then env
    else
      var a, before := attrs[|attrs| - 1], Inside(env, attrs[..|attrs| - 1]);
      var uri := if ValueOf(a) == "" then None else Some(ValueOf(a));
      if a.name.prefix == Some("xmlns") then before.(prefixes := before.prefixes[a.name.local := uri])
      else if a.name == P.Name(None, "xmlns") then before.(default := uri)
      else before
  }

  function Namespace(env: Env, prefix: Option<string>): Option<string>
  {
    match prefix
    case None => env.default
    case Some(p) => if p in env.prefixes then env.prefixes[p] else None
  }

  /** The default namespace is not for attributes. */
  function AttrNamespace(env: Env, name: P.Name): Option<string>
  {
    if name.prefix == Some("xmlns") || name == P.Name(None, "xmlns") then Some(XMLNS)
    else if name.prefix.None? then None
    else Namespace(env, name.prefix)
  }

  // ------------------------------------------------------------------ what a document says

  /** Start and end tags match, and no tag has an attribute twice or one with a name every object has. */
  predicate WellFormed(nodes: seq<Node>)
  {
    nodes != [] ==> NodeWellFormed(nodes[0]) && WellFormed(nodes[1..])
  }

  predicate NodeWellFormed(n: Node)
  {
    n.Element? ==> Fresh(n.attrs, INHERITED) && (n.closed || n.end.name == n.name) && WellFormed(n.nodes)
  }

  /** Rules as they come out of the mapping: names without colons, none of them twice. */
  ghost predicate Usable(schema: Schema)
  {
    forall r :: r in schema ==>
      && (forall e :: e in r.elements ==> ':' !in e.local && e.ns != Some("") && e.rules < |schema|)
      && (forall a :: a in r.attributes ==> ':' !in a.local && a.ns != Some(""))
      && DistinctElements(r.elements) && DistinctAttributes(r.attributes)
  }

  /** The last value given for the attribute of a rule. */
  function Given(rule: AttributeRule, env: Env, attrs: seq<Attr>): Option<string>
  {
    if attrs == [] then None
    else if Given(rule, env, attrs[1..]).Some? then Given(rule, env, attrs[1..])
    else if attrs[0].name.local == rule.local && AttrNamespace(env, attrs[0].name) == rule.ns then Some(ValueOf(attrs[0]))
    else None
  }

  function OrDefault(rule: AttributeRule, value: Option<string>): Option<string>
  {
    if value.Some? then value else rule.default
  }

  function Attributed(rules: seq<AttributeRule>, env: Env, attrs: seq<Attr>): seq<Option<string>>
  {
    seq(|rules|, i requires 0 <= i < |rules| => OrDefault(rules[i], Given(rules[i], env, attrs)))
  }

  /** A required attribute is neither given nor has it a default. */
  predicate Lacks(rules: seq<AttributeRule>, env: Env, attrs: seq<Attr>)
  {
    exists a :: a in rules && a.required && OrDefault(a, Given(a, env, attrs)).None?
  }

  /** Texts without the white space around them, entities replaced, and sections as they stand. */
  function TextOf(nodes: seq<Node>): string
  {
    if nodes == [] then ""
    else
      (match nodes[0]
       case Text(raw) => T.DecodeEntities(Trim(raw))
       case CData(text) => text
       case _ => "") + TextOf(nodes[1..])
  }

  predicate Calls(rule: ElementRule, env: Env, name: P.Name)
  {
    rule.local == name.local && rule.ns == Namespace(env, name.prefix)
  }

  /** The objects of the child elements a rule is for, in order. */
  function Children(g: P.Setting, env: Env, rule: ElementRule, nodes: seq<Node>): Option<seq<Obj>>
    decreases nodes, 0
  {
    if nodes == [] then Some([])
    else
      match Child(g, env, rule, nodes[0])
      case None => None
      case Some(first) => match Children(g, env, rule, nodes[1..]) case None => None case Some(more) => Some(first + more)
  }

  function Child(g: P.Setting, env: Env, rule: ElementRule, n: Node): Option<seq<Obj>>
    decreases n, 0
  {
    if n.Element? && Calls(rule, Inside(env, n.attrs), n.name) then
      match Meant(g, Inside(env, n.attrs), rule.rules, n.attrs, n.nodes) case None => None case Some(o) => Some([o])
    else Some([])
  }

  /** How many elements a rule allows; validation asks for the number, a single one is single anyway. */
  predicate Allowed(g: P.Setting, rule: ElementRule, n: nat)
  {
    (rule.many || n <= 1) && (g.validate ==> rule.min <= n && (rule.max.Some? ==> n <= rule.max.value))
  }

  function Fields(g: P.Setting, env: Env, rules: seq<ElementRule>, nodes: seq<Node>): Option<seq<Field>>
    decreases nodes, 1, |rules|
  {
    if rules == [] then Some([])
    else
      match Children(g, env, rules[0], nodes)
      case None => None
      case Some(items) =>
        if !Allowed(g, rules[0], |items|) then None
        else match Fields(g, env, rules[1..], nodes) case None => None case Some(more) => Some([Field(items)] + more)
  }

  /** The object of an element, if the rules allow it. */
  function Meant(g: P.Setting, env: Env, r: nat, attrs: seq<Attr>, nodes: seq<Node>): Option<Obj>
    decreases nodes, 2
  {
    if r >= |g.schema| then None
    else if g.validate && Lacks(g.schema[r].attributes, env, attrs) then None
    else
      match Fields(g, env, g.schema[r].elements, nodes)
      case None => None
      case Some(fields) =>
        Some(Obj(Attributed(g.schema[r].attributes, env, attrs),
                 if g.schema[r].characters then TextOf(nodes) else "",
                 fields))
  }

  /** The object of a document; its attributes and its text have no place in it. */
  function Meaning(g: P.Setting, root: nat, nodes: seq<Node>): Option<Option<Obj>>
    requires root < |g.schema|
  {
    if !WellFormed(nodes) then None
    else
      match Fields(g, OUTSIDE, g.schema[root].elements, nodes)
      case None => None
      case Some(fields) => Some(Some(Obj(seq(|g.schema[root].attributes|, i => None), "", fields)))
  }

  /** A rule that names no namespace is for the elements without a prefix where its parent's namespace is the default one, and one
      that names a namespace for those that are in it. */
  lemma RuleCalls(r: Rule, parent: Option<string>, env: Env, name: P.Name)
    requires r.ElementsRule?
    ensures r.declared.Inherited? && name.prefix.None? && env.default == parent ==>
              (Calls(ElementOf(r, parent), env, name) <==> name.local == LocalOf(r))
    ensures r.declared.Given? ==>
              (Calls(ElementOf(r, parent), env, name) <==> name.local == LocalOf(r) && Namespace(env, name.prefix) == r.declared.ns)
    ensures LocalOf(r) == match r.local case None => r.property case Some(l) => l
  {
  }

  // ------------------------------------------------------------------ namespaces as the parser looks them up

  ghost predicate EnvOk(env: Env)
  {
    env.default != Some("") && forall p :: p in env.prefixes ==> env.prefixes[p] != Some("")
  }

  ghost predicate Knows(scopes: seq<P.Scope>, env: Env)
  {
    && scopes != [] && scopes[|scopes| - 1].default == env.default
    && forall p :: P.Lookup(scopes, p) == if p in env.prefixes then env.prefixes[p] else None
  }

  lemma {:induction false} InsideOk(env: Env, attrs: seq<Attr>)
    requires EnvOk(env)
    ensures EnvOk(Inside(env, attrs))
  {
    hide ValueOf;
    if attrs != [] { InsideOk(env, attrs[..|attrs| - 1]); }
  }

  lemma {:induction false} ReadsAt(attrs: seq<Attr>)
    ensures |Reads(attrs)| == |attrs|
    ensures forall i :: 0 <= i < |attrs| ==> Reads(attrs)[i] == P.RawAttribute(attrs[i].name, ValueOf(attrs[i]))
  {
    hide ValueOf;
    if attrs != [] { ReadsAt(attrs[1..]); }
  }

  lemma ReadsFront(attrs: seq<Attr>)
    requires attrs != []
    ensures Reads(attrs) == Reads(attrs[..|attrs| - 1]) + [P.RawAttribute(attrs[|attrs| - 1].name, ValueOf(attrs[|attrs| - 1]))]
  {
    hide ValueOf, Reads;
    ReadsAt(attrs);
    ReadsAt(attrs[..|attrs| - 1]);
  }

  /** The declarations of a tag. */
  lemma {:induction false} DeclaredIs(env: Env, attrs: seq<Attr>)
    requires forall a :: a in attrs ==> AttrOk(a)
    ensures P.DefaultNs(Reads(attrs), env.default) == Inside(env, attrs).default
    ensures Inside(env, attrs).prefixes == env.prefixes + P.Prefixes(Reads(attrs))
    decreases |attrs|
  {
    hide ValueOf, T.IsName;
    if attrs == [] {
      assert env.prefixes + map[] == env.prefixes;
    } else {
      var n := |attrs| - 1;
      var a := attrs[n];
      assert a in attrs;
      DeclaredIs(env, attrs[..n]);
      ReadsFront(attrs);
      var all := Reads(attrs);
      assert |all| == |Reads(attrs[..n])| + 1 && all[..|all| - 1] == Reads(attrs[..n]);
      NoEmptyPrefix(a.name);
    }
  }

  lemma NoEmptyPrefix(name: P.Name)
    requires NameOk(name)
    ensures name.prefix != Some("")
  {
  }

  lemma EnteredKnows(scopes: seq<P.Scope>, env: Env, name: P.Name, attrs: seq<Attr>)
    requires Knows(scopes, env) && forall a :: a in attrs ==> AttrOk(a)
    ensures Knows(P.Entered(scopes, name, Reads(attrs)), Inside(env, attrs))
  {
    hide AttrOk, Inside, Reads, P.Prefixes, P.DefaultNs, P.Name.Text;
    DeclaredIs(env, attrs);
    var inside := P.Entered(scopes, name, Reads(attrs));
    assert inside[..|inside| - 1] == scopes;
  }

  /** Attributes with the namespaces they have. */
  lemma {:induction false} ResolvedAt(scopes: seq<P.Scope>, env: Env, attrs: seq<Attr>)
    requires Knows(scopes, env) && forall a :: a in attrs ==> AttrOk(a)
    ensures var r := P.Resolved(scopes, Reads(attrs));
            |r| == |attrs| && forall i :: 0 <= i < |attrs| ==>
              r[i] == Attribute(attrs[i].name.local, AttrNamespace(env, attrs[i].name), ValueOf(attrs[i]))
    decreases |attrs|
  {
    hide ValueOf, T.IsName, P.Lookup;
    if attrs != [] {
      assert attrs[0] in attrs;
      NoEmptyPrefix(attrs[0].name);
      ResolvedAt(scopes, env, attrs[1..]);
      var r := P.Resolved(scopes, Reads(attrs));
      assert Reads(attrs)[1..] == Reads(attrs[1..]);
      assert r == [r[0]] + P.Resolved(scopes, Reads(attrs[1..]));
    }
  }

  // ------------------------------------------------------------------ rules found by key

  lemma SameKey(l1: string, n1: Option<string>, l2: string, n2: Option<string>)
    requires ':' !in l1 && ':' !in l2 && n1 != Some("") && n2 != Some("")
    ensures RuleKey(l1, n1) == RuleKey(l2, n2) <==> l1 == l2 && n1 == n2
  {
    hide RuleKey;
    if RuleKey(l1, n1) == RuleKey(l2, n2) { KeyInjective(l1, n1, l2, n2); }
  }

  lemma NoColon(name: P.Name)
    requires NameOk(name)
    ensures ':' !in name.local && (name.prefix.Some? ==> ':' !in name.prefix.value)
  {
  }

  lemma TextTells(a: P.Name, b: P.Name)
    requires NameOk(a) && NameOk(b)
    ensures a.Text() == b.Text() <==> a == b
  {
    NoColon(a);
    NoColon(b);
    TextColon(a);
    TextColon(b);
    hide NameOk;
    if a.Text() == b.Text() && a.prefix.Some? && b.prefix.Some? {
      ColonPlace(a.prefix.value, a.local, b.prefix.value, b.local);
    }
  }

  lemma TextColon(a: P.Name)
    requires ':' !in a.local
    ensures ':' in a.Text() <==> a.prefix.Some?
  {
    if a.prefix.Some? { assert a.Text()[|a.prefix.value|] == ':'; }
  }

  lemma ColonPlace(p: string, l: string, q: string, m: string)
    requires p + ":" + l == q + ":" + m && ':' !in p && ':' !in q
    ensures p == q && l == m
  {
    var s := p + ":" + l;
    assert s[|p|] == ':' && s[|q|] == ':';
    assert (forall i :: 0 <= i < |p| ==> s[i] == p[i]) && (forall i :: 0 <= i < |q| ==> s[i] == q[i]);
    assert s[..|p|] == p && s[|p| + 1..] == l && s[..|q|] == q && s[|q| + 1..] == m;
  }

  /** An element's rule is the one for its name. */
  lemma RuleFound(rules: seq<ElementRule>, env: Env, name: P.Name)
    requires DistinctElements(rules) && EnvOk(env) && NameOk(name)
    requires forall e :: e in rules ==> ':' !in e.local && e.ns != Some("")
    ensures var k := FindElement(rules, RuleKey(name.local, Namespace(env, name.prefix)));
            && (k.Some? ==> k.value < |rules|)
            && forall j :: 0 <= j < |rules| ==> (Calls(rules[j], env, name) <==> k == Some(j))
  {
    hide FindElement, RuleKey;
    var ns := Namespace(env, name.prefix);
    var key := RuleKey(name.local, ns);
    var k := FindElement(rules, key);
    NoColon(name);
    FoundElement(rules, key);
    forall j | 0 <= j < |rules| ensures Calls(rules[j], env, name) <==> k == Some(j) {
      assert rules[j] in rules;
      SameKey(rules[j].local, rules[j].ns, name.local, ns);
    }
  }

  // ------------------------------------------------------------------ attributes

  lemma {:induction false} AssignIs(rules: seq<AttributeRule>, values: seq<Option<string>>, env: Env, attrs: seq<Attr>,
                                    read: seq<Attribute>)
    requires DistinctAttributes(rules) && EnvOk(env) && |values| == |rules| && |read| == |attrs|
    requires forall a :: a in rules ==> ':' !in a.local && a.ns != Some("")
    requires forall i :: 0 <= i < |attrs| ==>
               AttrOk(attrs[i]) && read[i] == Attribute(attrs[i].name.local, AttrNamespace(env, attrs[i].name), ValueOf(attrs[i]))
    ensures forall k :: 0 <= k < |rules| ==>
              AssignAll(rules, values, read)[k] == (if Given(rules[k], env, attrs).Some? then Given(rules[k], env, attrs) else values[k])
    decreases |attrs|
  {
    hide ValueOf, AttrOk, Assign, AttrNamespace;
    if attrs != [] {
      assert AttrOk(attrs[0]);
      AssignOne(rules, values, env, attrs[0], read[0]);
      AssignIs(rules, Assign(rules, values, read[0]), env, attrs[1..], read[1..]);
    }
  }

  lemma AssignOne(rules: seq<AttributeRule>, values: seq<Option<string>>, env: Env, a: Attr, read: Attribute)
    requires DistinctAttributes(rules) && EnvOk(env) && |values| == |rules| && AttrOk(a)
    requires forall r :: r in rules ==> ':' !in r.local && r.ns != Some("")
    requires read == Attribute(a.name.local, AttrNamespace(env, a.name), ValueOf(a))
    ensures forall k :: 0 <= k < |rules| ==>
              Assign(rules, values, read)[k]
              == if a.name.local == rules[k].local && AttrNamespace(env, a.name) == rules[k].ns then Some(ValueOf(a)) else values[k]
  {
    hide ValueOf, FindAttribute, RuleKey;
    var ns := AttrNamespace(env, a.name);
    NoColon(a.name);
    FoundAttribute(rules, RuleKey(a.name.local, ns));
    forall k | 0 <= k < |rules|
      ensures (a.name.local == rules[k].local && ns == rules[k].ns) <==> FindAttribute(rules, RuleKey(a.name.local, ns)) == Some(k)
    {
      assert rules[k] in rules;
      SameKey(rules[k].local, rules[k].ns, a.name.local, ns);
    }
  }

  lemma {:induction false} DefaultsAt(rules: seq<AttributeRule>, values: seq<Option<string>>)
    requires |rules| == |values|
    ensures |Defaults(rules, values)| == |rules|
    ensures forall k :: 0 <= k < |rules| ==> Defaults(rules, values)[k] == OrDefault(rules[k], values[k])
  {
    if rules != [] { DefaultsAt(rules[1..], values[1..]); }
  }

  /** The attributes a tag gives under rules, and whether a required one is missing. */
  lemma AttributesAre(rules: seq<AttributeRule>, scopes: seq<P.Scope>, env: Env, attrs: seq<Attr>)
    requires DistinctAttributes(rules) && EnvOk(env) && Knows(scopes, env) && forall a :: a in attrs ==> AttrOk(a)
    requires forall a :: a in rules ==> ':' !in a.local && a.ns != Some("")
    ensures var values := AssignAll(rules, seq(|rules|, _ => None), P.Resolved(scopes, Reads(attrs)));
            (Missing(rules, values) <==> Lacks(rules, env, attrs)) && Defaults(rules, values) == Attributed(rules, env, attrs)
  {
    hide AssignAll, Given, Knows, AttrOk, ValueOf, AttrNamespace, EnvOk, DistinctAttributes, P.Resolved, Reads, Defaults;
    ResolvedAt(scopes, env, attrs);
    var none: seq<Option<string>> := seq(|rules|, _ => None);
    var values := AssignAll(rules, none, P.Resolved(scopes, Reads(attrs)));
    AssignIs(rules, none, env, attrs, P.Resolved(scopes, Reads(attrs)));
    DefaultsAt(rules, values);
    assert forall k :: 0 <= k < |rules| ==> values[k] == Given(rules[k], env, attrs);
    assert Missing(rules, values) ==> Lacks(rules, env, attrs) by {
      if Missing(rules, values) {
        var i :| 0 <= i < |rules| && values[i].None? && rules[i].default.None? && rules[i].required;
        assert rules[i] in rules && OrDefault(rules[i], Given(rules[i], env, attrs)).None?;
      }
    }
  }

  // ------------------------------------------------------------------ the walk gathers what the document says

  /** With so many elements there is room for these. */
  predicate Room(rule: ElementRule, have: nat, more: nat)
  {
    rule.many || more == 0 || (have == 0 && more == 1)
  }

  function Items(f: Frame, k: nat): seq<Obj>
    requires f.element.Some? && k < |f.element.value.fields|
  {
    f.element.value.fields[k].items
  }

  /** The children are such that the element can take them. */
  ghost predicate Fits(g: P.Setting, env: Env, f: Frame, nodes: seq<Node>)
    requires FrameOk(g.schema, f) && f.element.Some?
  {
    var rules := RulesOf(g.schema, f).elements;
    forall k :: 0 <= k < |rules| ==>
      var c := Children(g, env, rules[k], nodes);
      c.Some? && Room(rules[k], |Items(f, k)|, |c.value|)
  }

  /** The frame with text and children added. */
  ghost predicate Added(g: P.Setting, env: Env, f: Frame, nodes: seq<Node>, h: Frame)
    requires FrameOk(g.schema, f) && f.element.Some?
  {
    var rules := RulesOf(g.schema, f);
    && Same(f, h) && h.characters == f.characters + (if rules.characters then TextOf(nodes) else "")
    && h.element.value.attributes == f.element.value.attributes && h.element.value.text == f.element.value.text
    && forall k :: 0 <= k < |rules.elements| ==>
         Children(g, env, rules.elements[k], nodes).Some?
         && Items(h, k) == Items(f, k) + Children(g, env, rules.elements[k], nodes).value
  }

  ghost predicate Gathers(g: P.Setting, env: Env, f: Frame, nodes: seq<Node>, r: Option<Frame>)
    requires FrameOk(g.schema, f)
  {
    match f.element
    case None => r == if WellFormed(nodes) then Some(f) else None
    case Some(_) =>
      && (r.Some? <==> WellFormed(nodes) && Fits(g, env, f, nodes))
      && (r.Some? ==> Added(g, env, f, nodes, r.value))
  }

  lemma OneChild(g: P.Setting, env: Env, rule: ElementRule, n: Node)
    ensures Children(g, env, rule, [n]) == Child(g, env, rule, n)
  {
    hide Child;
    var c := Child(g, env, rule, n);
    assert [n][1..] == [];
    assert Children(g, env, rule, []) == Some([]);
    if c.Some? { assert c.value + [] == c.value; }
  }

  lemma ChildrenFirst(g: P.Setting, env: Env, rule: ElementRule, nodes: seq<Node>)
    requires nodes != []
    ensures var a, b := Children(g, env, rule, [nodes[0]]), Children(g, env, rule, nodes[1..]);
            Children(g, env, rule, nodes) == if a.Some? && b.Some? then Some(a.value + b.value) else None
  {
    hide Child;
    OneChild(g, env, rule, nodes[0]);
  }

  lemma TextFirst(nodes: seq<Node>)
    requires nodes != []
    ensures TextOf(nodes) == TextOf([nodes[0]]) + TextOf(nodes[1..])
  {
    hide T.DecodeEntities, Trim;
    assert TextOf([]) == "" && [nodes[0]][1..] == [];
    var t := match nodes[0] case Text(raw) => T.DecodeEntities(Trim(raw)) case CData(text) => text case _ => "";
    assert t + "" == t;
    assert TextOf([nodes[0]]) == t;
  }

  lemma WellFormedFirst(nodes: seq<Node>)
    requires nodes != []
    ensures WellFormed(nodes) <==> WellFormed([nodes[0]]) && WellFormed(nodes[1..])
    ensures WellFormed([nodes[0]]) <==> NodeWellFormed(nodes[0])
  {
    hide NodeWellFormed;
    assert WellFormed([]) && [nodes[0]][1..] == [];
  }

  /** One node after the other. */
  lemma GathersOn(g: P.Setting, env: Env, f: Frame, nodes: seq<Node>, r1: Option<Frame>, r: Option<Frame>)
    requires FrameOk(g.schema, f) && nodes != [] && Gathers(g, env, f, [nodes[0]], r1)
    requires r1.Some? ==> FrameOk(g.schema, r1.value) && Same(f, r1.value) && Gathers(g, env, r1.value, nodes[1..], r)
    requires r1.None? ==> r.None?
    ensures Gathers(g, env, f, nodes, r)
  {
    hide FrameOk, Same, Fits, Added, WellFormed;
    WellFormedFirst(nodes);
    if f.element.Some? {
      if r1.Some? {
        SameElement(f, r1.value);
        FitsOn(g, env, f, nodes, r1.value);
        if r.Some? { AddedOn(g, env, f, nodes, r1.value, r.value); }
      } else {
        FitsFirst(g, env, f, nodes);
      }
    }
  }

  lemma SameElement(f: Frame, h: Frame)
    requires Same(f, h)
    ensures f.element.Some? == h.element.Some?
  {
  }

  lemma FitsFirst(g: P.Setting, env: Env, f: Frame, nodes: seq<Node>)
    requires FrameOk(g.schema, f) && f.element.Some? && nodes != []
    ensures Fits(g, env, f, nodes) ==> Fits(g, env, f, [nodes[0]])
  {
    hide Children;
    var rules := RulesOf(g.schema, f).elements;
    forall k | 0 <= k < |rules|
      ensures var c, d := Children(g, env, rules[k], nodes), Children(g, env, rules[k], [nodes[0]]);
              c.Some? && Room(rules[k], |Items(f, k)|, |c.value|) ==> d.Some? && Room(rules[k], |Items(f, k)|, |d.value|)
    {
      ChildrenFirst(g, env, rules[k], nodes);
    }
  }

  lemma FitsOn(g: P.Setting, env: Env, f: Frame, nodes: seq<Node>, h: Frame)
    requires FrameOk(g.schema, f) && f.element.Some? && nodes != [] && Fits(g, env, f, [nodes[0]])
    requires FrameOk(g.schema, h) && h.element.Some? && Added(g, env, f, [nodes[0]], h)
    ensures Fits(g, env, f, nodes) <==> Fits(g, env, h, nodes[1..])
  {
    hide Children;
    var rules := RulesOf(g.schema, f).elements;
    forall k | 0 <= k < |rules|
      ensures var c, d := Children(g, env, rules[k], nodes), Children(g, env, rules[k], nodes[1..]);
              (c.Some? && Room(rules[k], |Items(f, k)|, |c.value|)) <==> (d.Some? && Room(rules[k], |Items(h, k)|, |d.value|))
    {
      ChildrenFirst(g, env, rules[k], nodes);
    }
  }

  lemma AddedOn(g: P.Setting, env: Env, f: Frame, nodes: seq<Node>, h: Frame, h2: Frame)
    requires FrameOk(g.schema, f) && f.element.Some? && nodes != [] && Added(g, env, f, [nodes[0]], h)
    requires FrameOk(g.schema, h) && h.element.Some? && Added(g, env, h, nodes[1..], h2)
    ensures Added(g, env, f, nodes, h2)
  {
    hide Children, TextOf;
    var rules := RulesOf(g.schema, f);
    TextFirst(nodes);
    Twice(f.characters, if rules.characters then TextOf([nodes[0]]) else "", if rules.characters then TextOf(nodes[1..]) else "");
    forall k | 0 <= k < |rules.elements|
      ensures var c := Children(g, env, rules.elements[k], nodes); c.Some? && Items(h2, k) == Items(f, k) + c.value
    {
      ChildrenFirst(g, env, rules.elements[k], nodes);
    }
  }

  lemma Twice(a: string, b: string, c: string)
    ensures a + b + c == a + (b + c)
  {
  }

  /** A node that is no element. */
  lemma PlainGathers(g: P.Setting, env: Env, f: Frame, n: Node, text: string)
    requires FrameOk(g.schema, f) && !n.Element? && TextOf([n]) == text
    ensures Gathers(g, env, f, [n], Some(WithCharacters(g, f, text)))
  {
    hide TextOf, Children;
    assert WellFormed([n]) by { WellFormedFirst([n]); }
    if f.element.Some? {
      var rules := RulesOf(g.schema, f);
      forall k | 0 <= k < |rules.elements| ensures Children(g, env, rules.elements[k], [n]) == Some([]) {
        OneChild(g, env, rules.elements[k], n);
      }
      assert f.characters + "" == f.characters;
    }
  }

  lemma TextOfOne(n: Node)
    ensures TextOf([n]) == match n case Text(raw) => T.DecodeEntities(Trim(raw)) case CData(text) => text case _ => ""
  {
    hide T.DecodeEntities, Trim;
    assert [n][1..] == [] && TextOf([]) == "";
  }

  lemma {:induction false} TakeGathers(g: P.Setting, scopes: seq<P.Scope>, env: Env, f: Frame, nodes: seq<Node>)
    requires Usable(g.schema) && FrameOk(g.schema, f) && scopes != [] && Knows(scopes, env) && EnvOk(env) && NodesOk(nodes)
    ensures Gathers(g, env, f, nodes, Take(g, scopes, f, nodes))
    decreases nodes, 0
  {
    hide Usable, FrameOk, Knows, EnvOk, NodesOk, NodeOk, TakeNode, Take, Gathers;
    TakeFirst(g, scopes, f, nodes);
    if nodes == [] {
      NothingGathers(g, env, f);
    } else {
      TakeNodeGathers(g, scopes, env, f, nodes[0]);
      var r1 := TakeNode(g, scopes, f, nodes[0]);
      if r1.Some? { TakeGathers(g, scopes, env, r1.value, nodes[1..]); }
      GathersOn(g, env, f, nodes, r1, Take(g, scopes, f, nodes));
    }
  }

  lemma NothingGathers(g: P.Setting, env: Env, f: Frame)
    requires FrameOk(g.schema, f)
    ensures Gathers(g, env, f, [], Some(f))
  {
    assert f.characters + "" == f.characters;
  }

  lemma {:induction false} TakeNodeGathers(g: P.Setting, scopes: seq<P.Scope>, env: Env, f: Frame, n: Node)
    requires Usable(g.schema) && FrameOk(g.schema, f) && scopes != [] && Knows(scopes, env) && EnvOk(env) && NodeOk(n)
    ensures Gathers(g, env, f, [n], TakeNode(g, scopes, f, n))
    decreases n, 1
  {
    hide Usable, FrameOk, Knows, EnvOk, NodeOk, Gathers, Trim, T.DecodeEntities, Begun, Take, Left, P.Entered, Reads, Fresh, WithCharacters,
         P.Name.Text;
    TextOfOne(n);
    match n
    case Text(raw) => PlainGathers(g, env, f, n, T.DecodeEntities(Trim(raw)));
    case CData(text) => PlainGathers(g, env, f, n, text);
    case Comment(_) => PlainGathers(g, env, f, n, ""); NoCharacters(g, f);
    case Aside(_, _) => PlainGathers(g, env, f, n, ""); NoCharacters(g, f);
    case Element(_, _, _, _, _, _) => ElementGathers(g, scopes, env, f, n);
  }

  lemma NoCharacters(g: P.Setting, f: Frame)
    ensures WithCharacters(g, f, "") == f
  {
    assert f.characters + "" == f.characters;
  }

  /** Names what an element that begins is, if it may begin. */
  lemma BegunIs(g: P.Setting, inside: seq<P.Scope>, env: Env, f: Frame, name: P.Name, attrs: seq<Attr>)
    requires Usable(g.schema) && FrameOk(g.schema, f) && inside != [] && Knows(inside, env) && EnvOk(env)
    requires NameOk(name) && forall a :: a in attrs ==> AttrOk(a)
    ensures var rules, b := RulesOf(g.schema, f).elements, Begun(g, inside, f, name, attrs);
            match FindElement(rules, RuleKey(name.local, Namespace(env, name.prefix)))
            case None => b == Some(Frame(None, "", None, None))
            case Some(k) =>
              && k < |rules| && f.element.Some? && k < |f.element.value.fields| && rules[k].rules < |g.schema|
              && var r := g.schema[rules[k].rules];
              && (b.Some? <==> (rules[k].many || Items(f, k) == []) && !(g.validate && Lacks(r.attributes, env, attrs)))
              && (b.Some? ==> b.value == Empty(g.schema, rules[k].rules, k, Attributed(r.attributes, env, attrs)))
  {
    hide Knows, EnvOk, NameOk, AttrOk, FindElement, RuleKey, AssignAll, Missing, Defaults, P.Resolved, Attributed, Lacks, DistinctElements,
         DistinctAttributes;
    var rules, key := RulesOf(g.schema, f).elements, RuleKey(name.local, Namespace(env, name.prefix));
    NsIs(inside, env, name);
    FoundElement(rules, key);
    var k := FindElement(rules, key);
    if k.Some? {
      assert rules[k.value] in rules;
      RulesIn(g.schema, f);
      var r := g.schema[rules[k.value].rules];
      assert r in g.schema;
      AttributesAre(r.attributes, inside, env, attrs);
    }
  }

  lemma RulesIn(schema: Schema, f: Frame)
    requires FrameOk(schema, f)
    ensures f.element.None? ==> RulesOf(schema, f) == NO_RULES
    ensures f.element.Some? ==> RulesOf(schema, f) in schema && |f.element.value.fields| == |RulesOf(schema, f).elements|
  {
  }

  lemma NsIs(scopes: seq<P.Scope>, env: Env, name: P.Name)
    requires Knows(scopes, env) && NameOk(name) && scopes != []
    ensures P.NamespaceOf(scopes, name.prefix) == Namespace(env, name.prefix)
  {
    hide P.Lookup;
    NoEmptyPrefix(name);
  }

  /** An element that has just begun. */
  function Empty(schema: Schema, r: nat, slot: nat, attributes: seq<Option<string>>): Frame
    requires r < |schema|
  {
    Frame(Some(Obj(attributes, "", seq(|schema[r].elements|, _ => Field([])))), "", Some(r), Some(slot))
  }

  lemma {:induction false} FieldsAre(g: P.Setting, env: Env, rules: seq<ElementRule>, nodes: seq<Node>)
    ensures var fs := Fields(g, env, rules, nodes);
            && (fs.Some? <==> forall k :: 0 <= k < |rules| ==>
                  Children(g, env, rules[k], nodes).Some? && Allowed(g, rules[k], |Children(g, env, rules[k], nodes).value|))
            && (fs.Some? ==> |fs.value| == |rules| && forall k :: 0 <= k < |rules| ==>
                  Children(g, env, rules[k], nodes) == Some(fs.value[k].items))
    decreases |rules|
  {
    hide Children, Allowed;
    if rules != [] {
      FieldsAre(g, env, rules[1..], nodes);
      var fs, more := Fields(g, env, rules, nodes), Fields(g, env, rules[1..], nodes);
      assert forall k :: 1 <= k < |rules| ==> rules[k] == rules[1..][k - 1];
      if more.None? {
        var k :| 0 <= k < |rules[1..]| && !(Children(g, env, rules[1..][k], nodes).Some?
                                            && Allowed(g, rules[1..][k], |Children(g, env, rules[1..][k], nodes).value|));
        assert rules[k + 1] == rules[1..][k];
      }
    }
  }

  /** The element that was walked through is the one that is meant. */
  lemma MeantIs(g: P.Setting, env: Env, r: nat, slot: nat, attrs: seq<Attr>, nodes: seq<Node>, h1: Option<Frame>)
    requires r < |g.schema| && !(g.validate && Lacks(g.schema[r].attributes, env, attrs))
    requires var h := Empty(g.schema, r, slot, Attributed(g.schema[r].attributes, env, attrs));
             && FrameOk(g.schema, h) && (h1.Some? <==> Fits(g, env, h, nodes))
             && (h1.Some? ==> FrameOk(g.schema, h1.value) && Added(g, env, h, nodes, h1.value))
    ensures var o := Meant(g, env, r, attrs, nodes);
            && (o.Some? <==> h1.Some? && Validates(g.schema, g.validate, h1.value))
            && (o.Some? ==> Ended(g.schema, h1.value) == o)
  {
    hide Children, Lacks, Attributed, TextOf;
    var rules, h := g.schema[r].elements, Empty(g.schema, r, slot, Attributed(g.schema[r].attributes, env, attrs));
    FieldsAre(g, env, rules, nodes);
    assert RulesOf(g.schema, h) == g.schema[r];
    if h1.Some? {
      var e := h1.value.element.value;
      forall k | 0 <= k < |rules| ensures Children(g, env, rules[k], nodes) == Some(e.fields[k].items) {
        var c := Children(g, env, rules[k], nodes).value;
        assert Items(h1.value, k) == [] + c;
        assert [] + c == c;
      }
      var fs := Fields(g, env, rules, nodes);
      if fs.Some? { assert fs.value == e.fields; }
      assert "" + TextOf(nodes) == TextOf(nodes);
    }
  }

  /** No rule is for the element. */
  lemma UnknownGathers(g: P.Setting, env: Env, f: Frame, n: Node)
    requires n.Element? && FrameOk(g.schema, f)
    requires forall k :: 0 <= k < |RulesOf(g.schema, f).elements| ==> !Calls(RulesOf(g.schema, f).elements[k], Inside(env, n.attrs), n.name)
    ensures Gathers(g, env, f, [n], if WellFormed([n]) then Some(f) else None)
  {
    hide Calls, Children, WellFormed, TextOf;
    TextOfOne(n);
    if f.element.Some? {
      var rules := RulesOf(g.schema, f);
      forall k | 0 <= k < |rules.elements| ensures Children(g, env, rules.elements[k], [n]) == Some([]) {
        OneChild(g, env, rules.elements[k], n);
      }
      assert f.characters + "" == f.characters;
    }
  }

  /** The rule in slot `k` is for the element, and no other. */
  lemma KnownGathers(g: P.Setting, env: Env, f: Frame, n: Node, k: nat)
    requires n.Element? && FrameOk(g.schema, f) && f.element.Some? && k < |RulesOf(g.schema, f).elements|
    requires forall j :: 0 <= j < |RulesOf(g.schema, f).elements| ==>
               (Calls(RulesOf(g.schema, f).elements[j], Inside(env, n.attrs), n.name) <==> j == k)
    ensures var rule := RulesOf(g.schema, f).elements[k];
            var o := Meant(g, Inside(env, n.attrs), rule.rules, n.attrs, n.nodes);
            Gathers(g, env, f, [n], if WellFormed([n]) && o.Some? && (rule.many || Items(f, k) == []) then Some(Attach(f, k, o.value)) else None)
  {
    hide Calls, Children, WellFormed, TextOf, Meant, Inside;
    TextOfOne(n);
    var rules := RulesOf(g.schema, f);
    var o := Meant(g, Inside(env, n.attrs), rules.elements[k].rules, n.attrs, n.nodes);
    forall j | 0 <= j < |rules.elements|
      ensures Children(g, env, rules.elements[j], [n]) == if j != k then Some([]) else if o.Some? then Some([o.value]) else None
    {
      OneChild(g, env, rules.elements[j], n);
    }
    assert f.characters + "" == f.characters;
  }

  lemma UsableRules(schema: Schema, f: Frame)
    requires Usable(schema) && FrameOk(schema, f)
    ensures var rules := RulesOf(schema, f);
            && DistinctElements(rules.elements) && DistinctAttributes(rules.attributes)
            && (forall e :: e in rules.elements ==> ':' !in e.local && e.ns != Some("") && e.rules < |schema|)
  {
    hide RulesOf, FrameOk, DistinctElements, DistinctAttributes;
    RulesIn(schema, f);
    if f.element.None? { NothingTwice(); }
  }

  lemma NothingTwice()
    ensures DistinctElements([]) && DistinctAttributes([])
  {
  }

  lemma ElementWellFormed(n: Node)
    requires NodeOk(n) && n.Element?
    ensures WellFormed([n]) <==> Fresh(n.attrs, INHERITED) && (n.closed || n.end.name.Text() == n.name.Text()) && WellFormed(n.nodes)
    ensures NodesOk(n.nodes) && NameOk(n.name) && forall a :: a in n.attrs ==> AttrOk(a)
  {
    hide NameOk, AttrOk, WellFormed, Fresh, P.Name.Text;
    WellFormedFirst([n]);
    if !n.closed { TextTells(n.end.name, n.name); }
  }

  /** An element that no rule is for leaves no trace. */
  lemma UnknownTaken(g: P.Setting, scopes: seq<P.Scope>, env: Env, f: Frame, n: Node)
    requires n.Element? && FrameOk(g.schema, f) && scopes != []
    requires var inside := P.Entered(scopes, n.name, Reads(n.attrs));
             Begun(g, inside, f, n.name, n.attrs) == Some(Frame(None, "", None, None))
    requires var inside := P.Entered(scopes, n.name, Reads(n.attrs));
             Gathers(g, env, Frame(None, "", None, None), n.nodes, Take(g, inside, Frame(None, "", None, None), n.nodes))
    ensures TakeNode(g, scopes, f, n)
         == if Fresh(n.attrs, INHERITED) && (n.closed || n.end.name.Text() == n.name.Text()) && WellFormed(n.nodes) then Some(f) else None
  {
    hide Begun, Take, Fresh, P.Name.Text, WellFormed, P.Entered, Reads;
  }

  /** An element that a rule is for ends up in the slot of the rule. */
  lemma KnownTaken(g: P.Setting, scopes: seq<P.Scope>, env: Env, f: Frame, n: Node, k: nat, r: nat)
    requires n.Element? && FrameOk(g.schema, f) && f.element.Some? && scopes != [] && k < |f.element.value.fields| && r < |g.schema|
    requires var rules := g.schema[r].attributes;
             var h := Empty(g.schema, r, k, Attributed(rules, env, n.attrs));
             var b := Begun(g, P.Entered(scopes, n.name, Reads(n.attrs)), f, n.name, n.attrs);
             && (b.Some? ==> !(g.validate && Lacks(rules, env, n.attrs)) && b.value == h)
             && (b.Some? ==> Gathers(g, env, h, n.nodes, Take(g, P.Entered(scopes, n.name, Reads(n.attrs)), h, n.nodes)))
    ensures var o := Meant(g, env, r, n.attrs, n.nodes);
            TakeNode(g, scopes, f, n)
            == if Fresh(n.attrs, INHERITED) && Begun(g, P.Entered(scopes, n.name, Reads(n.attrs)), f, n.name, n.attrs).Some?
                  && (n.closed || n.end.name.Text() == n.name.Text()) && WellFormed(n.nodes) && o.Some?
               then Some(Attach(f, k, o.value)) else None
  {
    hide Begun, Take, Fresh, P.Name.Text, WellFormed, P.Entered, Reads, Meant, Fits, Added, Validates, Ended, Attributed, Lacks, FrameOk;
    var inside := P.Entered(scopes, n.name, Reads(n.attrs));
    ScopesInside(scopes, n.name, Reads(n.attrs));
    var b := Begun(g, inside, f, n.name, n.attrs);
    if b.Some? {
      var h1 := Take(g, inside, b.value, n.nodes);
      if WellFormed(n.nodes) {
        MeantIs(g, env, r, k, n.attrs, n.nodes, h1);
      }
    }
  }

  /** A missing attribute means no object. */
  lemma LackingIsNone(g: P.Setting, env: Env, r: nat, attrs: seq<Attr>, nodes: seq<Node>)
    requires r < |g.schema| && g.validate && Lacks(g.schema[r].attributes, env, attrs)
    ensures Meant(g, env, r, attrs, nodes) == None
  {
    hide Lacks, Fields, Attributed;
  }

  lemma {:induction false} ElementGathers(g: P.Setting, scopes: seq<P.Scope>, env: Env, f: Frame, n: Node)
    requires Usable(g.schema) && FrameOk(g.schema, f) && scopes != [] && Knows(scopes, env) && EnvOk(env) && NodeOk(n) && n.Element?
    ensures Gathers(g, env, f, [n], TakeNode(g, scopes, f, n))
    decreases n, 0
  {
    hide Usable, FrameOk, Knows, EnvOk, Gathers, Take, TakeNode, P.Entered, Reads, Fresh, P.Name.Text, Begun, Left, Inside, NodesOk, NodeOk,
         NameOk, AttrOk, WellFormed, Calls, FindElement, RuleKey, DistinctElements, DistinctAttributes, Lacks, Attributed, Meant, Empty;
    var inside, inner := P.Entered(scopes, n.name, Reads(n.attrs)), Inside(env, n.attrs);
    ElementWellFormed(n);
    ScopesInside(scopes, n.name, Reads(n.attrs));
    EnteredKnows(scopes, env, n.name, n.attrs);
    InsideOk(env, n.attrs);
    BegunIs(g, inside, inner, f, n.name, n.attrs);
    UsableRules(g.schema, f);
    RuleFound(RulesOf(g.schema, f).elements, inner, n.name);
    var b := Begun(g, inside, f, n.name, n.attrs);
    if b.Some? { TakeGathers(g, inside, inner, b.value, n.nodes); }
    var k := FindElement(RulesOf(g.schema, f).elements, RuleKey(n.name.local, Namespace(inner, n.name.prefix)));
    if k.None? {
      UnknownGathers(g, env, f, n);
      UnknownTaken(g, scopes, inner, f, n);
    } else {
      var r := RulesOf(g.schema, f).elements[k.value].rules;
      KnownGathers(g, env, f, n, k.value);
      KnownTaken(g, scopes, inner, f, n, k.value, r);
      if g.validate && Lacks(g.schema[r].attributes, inner, n.attrs) { LackingIsNone(g, inner, r, n.attrs, n.nodes); }
    }
  }

  // ------------------------------------------------------------------ whole documents

  /** Every document anyone may write: the parser accepts it exactly when it is well-formed and as the rules say, and then
      returns the object it means. */
  lemma ParsedMeans(g: P.Setting, root: nat, nodes: seq<Node>)
    requires Usable(g.schema) && root < |g.schema| && NodesOk(nodes)
    ensures P.Parsed(g, root, NodesText(nodes)) == Meaning(g, root, nodes)
  {
    hide Usable, NodesOk, Take, P.Parse, P.StateOk, NodesText, Validates, WellFormed, Fits, Added, Fields;
    var s, st, f := NodesText(nodes), P.State([P.DOCUMENT], [RootFrame(g.schema, root)]), RootFrame(g.schema, root);
    P.RootOk(g, root);
    OutsideKnown(g, root);
    WholeText(s);
    NodesParse(g, s, 0, st, nodes, "");
    TakeGathers(g, st.scopes, OUTSIDE, f, nodes);
    var h := Take(g, st.scopes, f, nodes);
    if h.Some? {
      TopTwice(st, h.value, h.value);
      ParseStops(g, s, WithTop(st, h.value));
      StackIs(g, WithTop(st, h.value));
    }
    if WellFormed(nodes) { RootMeant(g, root, nodes, h); }
  }

  lemma WholeText(s: string)
    ensures s[0..] == s + ""
  {
  }

  lemma ParseStops(g: P.Setting, s: string, st: P.State)
    requires P.StateOk(g, st)
    ensures P.Parse(g, s, |s|, st) == Some(st)
  {
  }

  lemma OutsideKnown(g: P.Setting, root: nat)
    requires root < |g.schema|
    ensures Knows([P.DOCUMENT], OUTSIDE) && EnvOk(OUTSIDE) && FrameOk(g.schema, RootFrame(g.schema, root))
  {
    assert forall p :: P.Lookup([P.DOCUMENT], p) == P.Lookup([P.DOCUMENT][..0], p);
    assert forall p :: P.Lookup([], p) == None;
    assert [P.DOCUMENT][..0] == [];
  }

  /** The document's object. */
  lemma RootMeant(g: P.Setting, root: nat, nodes: seq<Node>, h: Option<Frame>)
    requires root < |g.schema| && FrameOk(g.schema, RootFrame(g.schema, root))
    requires h.Some? <==> Fits(g, OUTSIDE, RootFrame(g.schema, root), nodes)
    requires h.Some? ==> FrameOk(g.schema, h.value) && Added(g, OUTSIDE, RootFrame(g.schema, root), nodes, h.value)
    ensures var fs := Fields(g, OUTSIDE, g.schema[root].elements, nodes);
            && (fs.Some? <==> h.Some? && Validates(g.schema, g.validate, h.value))
            && (fs.Some? ==> h.value.element == Some(Obj(seq(|g.schema[root].attributes|, i => None), "", fs.value)))
  {
    hide Children, TextOf;
    var rules := g.schema[root].elements;
    FieldsAre(g, OUTSIDE, rules, nodes);
    if h.Some? {
      var e := h.value.element.value;
      forall k | 0 <= k < |rules| ensures Children(g, OUTSIDE, rules[k], nodes) == Some(e.fields[k].items) {
        var c := Children(g, OUTSIDE, rules[k], nodes).value;
        assert Items(h.value, k) == [] + c;
        assert [] + c == c;
      }
      var fs := Fields(g, OUTSIDE, rules, nodes);
      if fs.Some? { assert fs.value == e.fields; }
    }
  }

  /** Rules for one element that holds nothing but text, if anything. */
  function OneElement(name: string, takes: bool): Schema
  {
    [RuleSet([], [ElementRule(name, None, false, 0, Some(1), 1)], false), RuleSet([], [], takes)]
  }

  /** Text between two tags: it comes back without the white space around it when the rule takes text, and is gone when not. */
  lemma TextRead(validate: bool, name: string, takes: bool, front: string, text: string, back: string)
    requires T.IsName(name) && AllTrimmed(front) && Tight(text) && AllTrimmed(back)
    ensures P.Parsed(P.Setting(OneElement(name, takes), validate), 0,
                     "<" + name + ">" + T.EncodeEntities(front + text + back) + "</" + name + ">")
         == Some(Some(Obj([], "", [Field([Obj([], if takes then text else "", [])])])))
  {
    hide T.EncodeEntities, T.DecodeEntities, Trim, T.IsName, AllTrimmed, Tight, P.Parsed, NodesOk, NodesText, Meaning, Usable, OneElement;
    var g := P.Setting(OneElement(name, takes), validate);
    var raw := T.EncodeEntities(front + text + back);
    T.TrimmedBack(front, text, back);
    OneUsable(name, takes);
    OneNodeOk(name, raw) by { T.EncodedIsClean(front + text + back); }
    ParsedMeans(g, 0, [TextElement(name, raw)]);
    OneMeant(g, name, takes, raw);
  }

  function TextElement(name: string, raw: string): Node
  {
    var n := P.Name(None, name);
    Element(n, [], "", false, [Text(raw)], EndTag("", n, ""))
  }

  lemma OneUsable(name: string, takes: bool)
    requires T.IsName(name)
    ensures Usable(OneElement(name, takes)) && |OneElement(name, takes)| == 2
  {
    NoColon(P.Name(None, name));
  }

  lemma OneNodeOk(name: string, raw: string)
    requires T.IsName(name) && '<' !in raw
    ensures NodesOk([TextElement(name, raw)])
    ensures NodesText([TextElement(name, raw)]) == "<" + name + ">" + raw + "</" + name + ">"
  {
    hide T.IsName;
    var n := TextElement(name, raw);
    assert [n][1..] == [] && [Text(raw)][1..] == [] && NodesOk([]);
    assert NodesOk([Text(raw)]);
    assert AllWhite("");
    assert NodesText([Text(raw)]) == raw + NodesText([]);
    assert NodesText([Text(raw)]) == raw;
    assert AttrsText([]) == "";
    assert OpenText(n.name, [], "", false) == "<" + (name + ("" + ("" + ">")));
    assert EndText(n.end) == "</" + ("" + (name + ("" + ">")));
    assert NodeText(n) == "<" + name + ">" + raw + "</" + name + ">";
    assert NodesText([n]) == NodeText(n) + NodesText([]);
  }

  lemma OneMeant(g: P.Setting, name: string, takes: bool, raw: string)
    requires g.schema == OneElement(name, takes)
    ensures Meaning(g, 0, [TextElement(name, raw)])
         == Some(Some(Obj([], "", [Field([Obj([], if takes then T.DecodeEntities(Trim(raw)) else "", [])])])))
  {
    hide T.DecodeEntities, Trim;
    var n := TextElement(name, raw);
    var rule := g.schema[0].elements[0];
    var text := T.DecodeEntities(Trim(raw));
    TextOfOne(Text(raw));
    assert [Text(raw)][1..] == [] && [n][1..] == [] && g.schema[0].elements[1..] == [];
    WellFormedFirst([Text(raw)]);
    WellFormedFirst([n]);
    assert WellFormed([]) && NodeWellFormed(n);
    assert Fields(g, OUTSIDE, [], [Text(raw)]) == Some([]);
    assert Attributed([], OUTSIDE, []) == [];
    assert Meant(g, OUTSIDE, 1, [], [Text(raw)]) == Some(Obj([], if takes then text else "", []));
    OneChild(g, OUTSIDE, rule, n);
    assert Fields(g, OUTSIDE, [], [n]) == Some([]);
    var field := Field([Obj([], if takes then text else "", [])]);
    assert [field] + [] == [field];
    assert Fields(g, OUTSIDE, g.schema[0].elements, [n]) == Some([field]);
    var none: seq<Option<string>> := seq(|g.schema[0].attributes|, i => None);
    assert none == [];
  }
}
