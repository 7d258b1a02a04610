/** The rules that drive both the XML writer and the XML parser, and the objects they describe. */
module XmlRules {
  import opened Wrappers
  import opened Strings
  import opened XmlText

  const XMLNS := "http://www.w3.org/2000/xmlns/"

  datatype AttributeRule = AttributeRule(local: string, ns: Option<string>, required: bool, default: Option<string>)

  /** `rules` names the rules for the matched elements. */
  datatype ElementRule = ElementRule(local: string, ns: Option<string>, many: bool, min: nat, max: Option<nat>, rules: nat)

  datatype RuleSet = RuleSet(attributes: seq<AttributeRule>, elements: seq<ElementRule>, characters: bool)

  /** All rule sets there are; rules may refer to each other in circles. */
  type Schema = seq<RuleSet>

  /** An object: the printed values of its attribute properties, its text, and its child elements, rule by rule. */
  datatype Obj = Obj(attributes: seq<Option<string>>, text: string, fields: seq<Field>)

  datatype Field = Field(items: seq<Obj>)

  // ------------------------------------------------------------------ rule keys

  function NsText(ns: Option<string>): string
  {
    match ns case None => "" case Some(u) => u
  }

  function RuleKey(local: string, ns: Option<string>): string
  {
    NsText(ns) + ":" + local
  }

  /** Keys tell namespaces and local names apart, as long as local names hold no colon. */
  lemma KeyInjective(l1: string, n1: Option<string>, l2: string, n2: Option<string>)
    requires ':' !in l1 && ':' !in l2 && RuleKey(l1, n1) == RuleKey(l2, n2)
    ensures l1 == l2 && NsText(n1) == NsText(n2)
  {
    var a, b := NsText(n1), NsText(n2);
    var k := RuleKey(l1, n1);
    LastColon(k, b, l2, |a|);
    LastColon(k, a, l1, |b|);
    assert k[..|a|] == a && k[..|b|] == b;
    assert k[|a| + 1..] == l1 && k[|b| + 1..] == l2;
  }

  lemma LastColon(k: string, front: string, local: string, i: nat)
    requires k == front + ":" + local && ':' !in local && i < |k| && k[i] == ':'
    ensures i <= |front|
  {
    forall j | |front| < j < |k| ensures k[j] != ':'
    {
      assert k[j] == local[j - |front| - 1];
    }
  }

  /** With a colon in a local name two different names can share a key. */
  lemma KeysCanClash()
    ensures RuleKey("b:c", Some("a")) == RuleKey("c", Some("a:b"))
  {
  }

  /** No other name has this key. */
  ghost predicate KeyUnique(l: string, n: Option<string>)
  {
    forall l2: string, n2: Option<string> :: RuleKey(l2, n2) == RuleKey(l, n) ==> l2 == l && NsText(n2) == NsText(n)
  }

  /** No other name without a colon in its local part has this key. */
  ghost predicate KeyUniqueAmongPlain(l: string, n: Option<string>)
  {
    forall l2: string, n2: Option<string> ::
      ':' !in l2 && RuleKey(l2, n2) == RuleKey(l, n) ==> l2 == l && NsText(n2) == NsText(n)
  }

  /** A key belongs to one name only exactly when neither the local name nor the namespace holds a colon. */
  lemma KeyUniqueIff(l: string, n: Option<string>)
    ensures KeyUnique(l, n) <==> ':' !in l && ':' !in NsText(n)
  {
    hide RuleKey;
    var u := NsText(n);
    if ':' in l {
      var i :| 0 <= i < |l| && l[i] == ':';
      ColonMoves(u, l[..i], l[i + 1..]);
      assert l == l[..i] + ":" + l[i + 1..];
      KeyIs(l, n);
      KeyIs(l[i + 1..], Some(u + ":" + l[..i]));
    } else if ':' in u {
      var i :| 0 <= i < |u| && u[i] == ':';
      ColonMoves(u[..i], u[i + 1..], l);
      assert u == u[..i] + ":" + u[i + 1..];
      KeyIs(l, n);
      KeyIs(u[i + 1..] + ":" + l, Some(u[..i]));
    } else {
      forall l2: string, n2: Option<string> | RuleKey(l2, n2) == RuleKey(l, n)
        ensures l2 == l && NsText(n2) == NsText(n)
      {
        OneColon(l, u, l2, NsText(n2)) by { KeyIs(l, n); KeyIs(l2, n2); }
      }
    }
  }

  /** Local names without a colon keep their keys to themselves, and only they do. */
  lemma PlainKeyUniqueIff(l: string, n: Option<string>)
    ensures KeyUniqueAmongPlain(l, n) <==> ':' !in l
  {
    hide RuleKey;
    if ':' in l {
      var i := LastColonOf(l);
      ColonMoves(NsText(n), l[..i], l[i + 1..]);
      assert l == l[..i] + ":" + l[i + 1..];
      KeyIs(l, n);
      KeyIs(l[i + 1..], Some(NsText(n) + ":" + l[..i]));
    } else {
      forall l2: string, n2: Option<string> | ':' !in l2 && RuleKey(l2, n2) == RuleKey(l, n)
        ensures l2 == l && NsText(n2) == NsText(n)
      {
        KeyInjective(l2, n2, l, n);
      }
    }
  }

  lemma KeyIs(l: string, n: Option<string>)
    ensures RuleKey(l, n) == NsText(n) + ":" + l
  {
  }

  lemma ColonMoves(a: string, b: string, c: string)
    ensures a + ":" + (b + ":" + c) == (a + ":" + b) + ":" + c
  {
  }

  lemma OneColon(l: string, u: string, l2: string, u2: string)
    requires ':' !in l && ':' !in u && u + ":" + l == u2 + ":" + l2
    ensures l2 == l && u2 == u
  {
    var k := u + ":" + l;
    assert k[|u2|] == ':';
    assert forall j :: 0 <= j < |u| ==> k[j] == u[j];
    assert forall j :: |u| < j < |k| ==> k[j] == l[j - |u| - 1];
    assert k[..|u|] == u && k[..|u2|] == u2 && k[|u| + 1..] == l && k[|u2| + 1..] == l2;
  }

  function LastColonOf(l: string): (i: nat)
    requires ':' in l
    ensures i < |l| && l[i] == ':' && ':' !in l[i + 1..]
  {
    if l[|l| - 1] == ':' then |l| - 1
    else
      assert l == l[..|l| - 1] + [l[|l| - 1]];
      var i := LastColonOf(l[..|l| - 1]);
      assert l[i + 1..] == l[..|l| - 1][i + 1..] + [l[|l| - 1]];
      i
  }

  predicate DistinctElements(rules: seq<ElementRule>)
  {
    forall i, j :: 0 <= i < j < |rules| ==> RuleKey(rules[i].local, rules[i].ns) != RuleKey(rules[j].local, rules[j].ns)
  }

  predicate DistinctAttributes(rules: seq<AttributeRule>)
  {
    forall i, j :: 0 <= i < j < |rules| ==> RuleKey(rules[i].local, rules[i].ns) != RuleKey(rules[j].local, rules[j].ns)
  }

  function ElementKeys(rules: seq<ElementRule>): set<string>
  {
    set e | e in rules :: RuleKey(e.local, e.ns)
  }

  function AttributeKeys(rules: seq<AttributeRule>): set<string>
  {
    set a | a in rules :: RuleKey(a.local, a.ns)
  }

  lemma OneMoreElement(rules: seq<ElementRule>, e: ElementRule)
    ensures ElementKeys(rules + [e]) == ElementKeys(rules) + {RuleKey(e.local, e.ns)}
    ensures DistinctElements(rules + [e]) <==> DistinctElements(rules) && RuleKey(e.local, e.ns) !in ElementKeys(rules)
  {
    hide RuleKey;
    var all := rules + [e];
    assert forall i :: 0 <= i < |rules| ==> all[i] == rules[i];
    assert all[|rules|] == e;
    assert forall x :: x in all <==> x in rules || x == e;
    if RuleKey(e.local, e.ns) in ElementKeys(rules) {
      var x :| x in rules && RuleKey(x.local, x.ns) == RuleKey(e.local, e.ns);
      var i :| 0 <= i < |rules| && rules[i] == x;
      assert RuleKey(all[i].local, all[i].ns) == RuleKey(all[|rules|].local, all[|rules|].ns);
    } else {
      assert forall i :: 0 <= i < |rules| ==> rules[i] in rules;
    }
  }

  lemma OneMoreAttribute(rules: seq<AttributeRule>, a: AttributeRule)
    ensures AttributeKeys(rules + [a]) == AttributeKeys(rules) + {RuleKey(a.local, a.ns)}
    ensures DistinctAttributes(rules + [a]) <==> DistinctAttributes(rules) && RuleKey(a.local, a.ns) !in AttributeKeys(rules)
  {
    hide RuleKey;
    var all := rules + [a];
    assert forall i :: 0 <= i < |rules| ==> all[i] == rules[i];
    assert all[|rules|] == a;
    assert forall x :: x in all <==> x in rules || x == a;
    if RuleKey(a.local, a.ns) in AttributeKeys(rules) {
      var x :| x in rules && RuleKey(x.local, x.ns) == RuleKey(a.local, a.ns);
      var i :| 0 <= i < |rules| && rules[i] == x;
      assert RuleKey(all[i].local, all[i].ns) == RuleKey(all[|rules|].local, all[|rules|].ns);
    } else {
      assert forall i :: 0 <= i < |rules| ==> rules[i] in rules;
    }
  }

  // ------------------------------------------------------------------ building the rules

  /** The namespace a rule names: not at all, or explicitly, none included. */
  datatype Declared = Inherited | Given(ns: Option<string>)

  /** A rule as a schema author writes it; an omitted local name is the property's. */
  datatype Rule =
    | CharactersRule(property: string)
    | ElementsRule(property: string, local: Option<string>, declared: Declared, many: bool, min: nat, max: Option<nat>, rules: nat)
    | AttributesRule(property: string, local: Option<string>, ns: Option<string>, required: bool, default: Option<string>)

  function LocalOf(r: Rule): string
    requires !r.CharactersRule?
  {
    match r.local case None => r.property case Some(l) => l
  }

  /** Elements without a namespace of their own take their parent's; attributes never do. */
  function ElementOf(r: Rule, parent: Option<string>): ElementRule
    requires r.ElementsRule?
  {
    ElementRule(LocalOf(r), (match r.declared case Inherited => parent case Given(ns) => ns), r.many, r.min, r.max, r.rules)
  }

  function AttributeOf(r: Rule): AttributeRule
    requires r.AttributesRule?
  {
    AttributeRule(LocalOf(r), r.ns, r.required, r.default)
  }

  function ElementsOf(rules: seq<Rule>, parent: Option<string>): seq<ElementRule>
  {
    if rules == [] then []
    else ElementsOf(rules[..|rules| - 1], parent)
         + (if rules[|rules| - 1].ElementsRule? then [ElementOf(rules[|rules| - 1], parent)] else [])
  }

  function AttributesOf(rules: seq<Rule>): seq<AttributeRule>
  {
    if rules == [] then []
    else AttributesOf(rules[..|rules| - 1]) + (if rules[|rules| - 1].AttributesRule? then [AttributeOf(rules[|rules| - 1])] else [])
  }

  function CharactersIn(rules: seq<Rule>): nat
  {
    if rules == [] then 0 else CharactersIn(rules[..|rules| - 1]) + (if rules[|rules| - 1].CharactersRule? then 1 else 0)
  }

  /** No two rules of a kind share a key, and at most one takes the text. */
  predicate Unambiguous(rules: seq<Rule>, parent: Option<string>)
  {
    DistinctElements(ElementsOf(rules, parent)) && DistinctAttributes(AttributesOf(rules)) && CharactersIn(rules) <= 1
  }

  lemma {:induction false} PrefixUnambiguous(rules: seq<Rule>, parent: Option<string>, n: nat)
    requires n <= |rules| && Unambiguous(rules, parent)
    ensures Unambiguous(rules[..n], parent)
    decreases |rules| - n
  {
    if n < |rules| {
      PrefixUnambiguous(rules, parent, n + 1);
      var m := rules[..n + 1];
      assert m[..n] == rules[..n];
      var rule := rules[n];
      assert ElementsOf(m[..n], parent) + [] == ElementsOf(m[..n], parent);
      assert AttributesOf(m[..n]) + [] == AttributesOf(m[..n]);
      hide RuleKey, DistinctElements, DistinctAttributes, ElementKeys, AttributeKeys;
      if rule.ElementsRule? { OneMoreElement(ElementsOf(m[..n], parent), ElementOf(rule, parent)); }
      if rule.AttributesRule? { OneMoreAttribute(AttributesOf(m[..n]), AttributeOf(rule)); }
    } else {
      assert rules[..n] == rules;
    }
  }

  /** Maps rules to their keys; it fails exactly when two rules of a kind share one, or two take the text. */
  method MapXmlRules(rules: seq<Rule>, parent: Option<string>) returns (mapped: Option<RuleSet>)
    ensures mapped.Some? <==> Unambiguous(rules, parent)
    ensures mapped.Some? ==>
              mapped.value == RuleSet(AttributesOf(rules), ElementsOf(rules, parent), CharactersIn(rules) == 1)
  {
    var attributes: seq<AttributeRule> := [];
    var elements: seq<ElementRule> := [];
    var characters := false;
    var elementKeys: set<string> := {};
    var attributeKeys: set<string> := {};
    for n := 0 to |rules|
      invariant attributes == AttributesOf(rules[..n]) && elements == ElementsOf(rules[..n], parent)
      invariant CharactersIn(rules[..n]) == if characters then 1 else 0
      invariant elementKeys == ElementKeys(elements) && attributeKeys == AttributeKeys(attributes)
      invariant Unambiguous(rules[..n], parent)
    {
      hide RuleKey, ElementKeys, AttributeKeys, DistinctElements, DistinctAttributes;
      var rule := rules[n];
      assert rules[..n + 1][..n] == rules[..n];
      ghost var next := rules[..n + 1];
      if !Unambiguous(next, parent) { NotYet(rules, parent, n + 1); }
      match rule
      case CharactersRule(_) =>
        if characters { return None; }
        characters := true;
      case ElementsRule(_, _, _, _, _, _, _) =>
        var e := ElementOf(rule, parent);
        var key := RuleKey(e.local, e.ns);
        OneMoreElement(elements, e);
        if key in elementKeys { return None; }
        elementKeys := elementKeys + {key};
        elements := elements + [e];
      case AttributesRule(_, _, _, _, _) =>
        var a := AttributeOf(rule);
        var key := RuleKey(a.local, a.ns);
        OneMoreAttribute(attributes, a);
        if key in attributeKeys { return None; }
        attributeKeys := attributeKeys + {key};
        attributes := attributes + [a];
    }
    assert rules[..|rules|] == rules;
    return Some(RuleSet(attributes, elements, characters));
  }

  lemma NotYet(rules: seq<Rule>, parent: Option<string>, n: nat)
    requires n <= |rules| && !Unambiguous(rules[..n], parent)
    ensures !Unambiguous(rules, parent)
  {
    hide Unambiguous;
    if Unambiguous(rules, parent) {
      PrefixUnambiguous(rules, parent, n);
      assert false;
    }
  }

  // ------------------------------------------------------------------ usable rules and fitting objects

  /** Names that every JavaScript object has: the parser's attribute record takes them for given already. */
  const INHERITED := {"constructor", "__defineGetter__", "__defineSetter__", "hasOwnProperty", "__lookupGetter__",
                      "__lookupSetter__", "isPrototypeOf", "propertyIsEnumerable", "toString", "valueOf", "__proto__",
                      "toLocaleString"}

  /** A namespace name stands unescaped between quotes in the document. */
  predicate UriOk(uri: string)
  {
    uri != "" && '"' !in uri
  }

  predicate NsOk(ns: Option<string>)
  {
    ns.Some? ==> UriOk(ns.value)
  }

  predicate AttributeOk(a: AttributeRule)
  {
    && IsName(a.local) && NsOk(a.ns) && a.ns != Some(XMLNS)
    && (a.ns.None? ==> a.local != "xmlns")
  }

  /** Written with a name that every object has. */
  predicate InheritedName(a: AttributeRule)
  {
    a.ns.None? && a.local in INHERITED
  }

  predicate ElementOk(schema: Schema, e: ElementRule)
  {
    IsName(e.local) && NsOk(e.ns) && e.rules < |schema| && (!e.many ==> e.min <= 1 && e.max == Some(1))
  }

  predicate RulesOk(schema: Schema, r: RuleSet)
  {
    && (forall a :: a in r.attributes ==> AttributeOk(a))
    && (forall e :: e in r.elements ==> ElementOk(schema, e))
    && DistinctAttributes(r.attributes) && DistinctElements(r.elements)
  }

  ghost predicate SchemaOk(schema: Schema)
  {
    forall r :: r in schema ==> RulesOk(schema, r)
  }

  /** The object has the properties its rules describe; a single child is at most one. */
  predicate Shaped(schema: Schema, r: nat, o: Obj)
    requires r < |schema|
    decreases o
  {
    && |o.attributes| == |schema[r].attributes|
    && (!schema[r].characters ==> o.text == "")
    && AllShaped(schema, schema[r].elements, o.fields)
  }

  predicate AllShaped(schema: Schema, rules: seq<ElementRule>, fs: seq<Field>)
    decreases fs
  {
    && |fs| == |rules|
    && (fs != [] ==>
          && rules[0].rules < |schema| && (!rules[0].many ==> |fs[0].items| <= 1)
          && ListShaped(schema, rules[0].rules, fs[0].items) && AllShaped(schema, rules[1..], fs[1..]))
  }

  predicate ListShaped(schema: Schema, r: nat, items: seq<Obj>)
    requires r < |schema|
    decreases items
  {
    items != [] ==> Shaped(schema, r, items[0]) && ListShaped(schema, r, items[1..])
  }

  /** No attribute with an inherited name would be written: those are absent, or at their default. */
  predicate PlainAttributes(rules: seq<AttributeRule>, values: seq<Option<string>>)
    requires |rules| == |values|
  {
    forall k :: 0 <= k < |rules| && InheritedName(rules[k]) ==> values[k].None? || values[k] == rules[k].default
  }

  /** The same in an object and everything below it. */
  predicate Plain(schema: Schema, r: nat, o: Obj)
    requires r < |schema| && Shaped(schema, r, o)
    decreases o
  {
    PlainAttributes(schema[r].attributes, o.attributes) && AllPlain(schema, schema[r].elements, o.fields)
  }

  predicate AllPlain(schema: Schema, rules: seq<ElementRule>, fs: seq<Field>)
    requires AllShaped(schema, rules, fs)
    decreases fs
  {
    fs != [] ==> ListPlain(schema, rules[0].rules, fs[0].items) && AllPlain(schema, rules[1..], fs[1..])
  }

  predicate ListPlain(schema: Schema, r: nat, items: seq<Obj>)
    requires r < |schema| && ListShaped(schema, r, items)
    decreases items
  {
    items != [] ==> Plain(schema, r, items[0]) && ListPlain(schema, r, items[1..])
  }

  /** A namespace that is read as it is written: it holds nothing that looks like an entity. */
  predicate LiteralNs(ns: Option<string>)
  {
    ns.Some? ==> DecodeEntities(ns.value) == ns.value
  }

  /** A rule whose attribute is written. */
  predicate Writes(r: AttributeRule, value: Option<string>)
  {
    value.Some? && value != r.default
  }

  /** Every attribute that is written has such a namespace. */
  predicate LiteralAttributes(rules: seq<AttributeRule>, values: seq<Option<string>>)
    requires |rules| == |values|
  {
    forall k :: 0 <= k < |rules| && Writes(rules[k], values[k]) ==> LiteralNs(rules[k].ns)
  }

  /** So has everything written below an object. */
  predicate Literal(schema: Schema, r: nat, o: Obj)
    requires r < |schema| && Shaped(schema, r, o)
    decreases o
  {
    LiteralAttributes(schema[r].attributes, o.attributes) && AllLiteral(schema, schema[r].elements, o.fields)
  }

  predicate AllLiteral(schema: Schema, rules: seq<ElementRule>, fs: seq<Field>)
    requires AllShaped(schema, rules, fs)
    decreases fs
  {
    fs != [] ==>
      && (fs[0].items != [] ==> LiteralNs(rules[0].ns))
      && ListLiteral(schema, rules[0].rules, fs[0].items) && AllLiteral(schema, rules[1..], fs[1..])
  }

  predicate ListLiteral(schema: Schema, r: nat, items: seq<Obj>)
    requires r < |schema| && ListShaped(schema, r, items)
    decreases items
  {
    items != [] ==> Literal(schema, r, items[0]) && ListLiteral(schema, r, items[1..])
  }

  /** The object with the defaults of absent attributes filled in, all the way down. */
  function Filled(schema: Schema, r: nat, o: Obj): Obj
    requires r < |schema| && Shaped(schema, r, o)
    decreases o
  {
    Obj(Defaults(schema[r].attributes, o.attributes), o.text, AllFilled(schema, schema[r].elements, o.fields))
  }

  function Defaults(rules: seq<AttributeRule>, values: seq<Option<string>>): seq<Option<string>>
    requires |rules| == |values|
  {
    if rules == [] then []
    else [if values[0].Some? then values[0] else rules[0].default] + Defaults(rules[1..], values[1..])
  }

  function AllFilled(schema: Schema, rules: seq<ElementRule>, fs: seq<Field>): (filled: seq<Field>)
    requires AllShaped(schema, rules, fs)
    ensures |filled| == |rules|
    decreases fs
  {
    if fs == [] then []
    else [Field(ListFilled(schema, rules[0].rules, fs[0].items))] + AllFilled(schema, rules[1..], fs[1..])
  }

  function ListFilled(schema: Schema, r: nat, items: seq<Obj>): seq<Obj>
    requires r < |schema| && ListShaped(schema, r, items)
    decreases items
  {
    if items == [] then [] else [Filled(schema, r, items[0])] + ListFilled(schema, r, items[1..])
  }
}
