/** Start tags survive: the attributes the writer puts into a tag are the properties the handler sets, and the
    declarations beside them give every prefix its namespace back. */
module XmlTags {
  import opened Wrappers
  import opened Strings
  import opened XmlText
  import opened XmlRules
  import opened XmlHandling
  import opened XmlWriting
  import opened XmlNames
  import opened XmlScanning
  import P = XmlParsing

  // ------------------------------------------------------------------ where attributes come from

  /** The attribute belongs to the rule: same local name, and a prefix bound to the rule's namespace. */
  predicate FromRule(a: RawAttr, r: AttributeRule, used: seq<Binding>)
  {
    a.local == r.local && (if r.ns.None? then a.prefix.None? else a.prefix.Some? && Binding(r.ns.value, a.prefix.value) in used)
  }

  ghost predicate Sourced(attrs: seq<RawAttr>, rules: seq<AttributeRule>, used: seq<Binding>)
  {
    forall a :: a in attrs ==> exists r :: r in rules && FromRule(a, r, used)
  }

  lemma {:induction false} AttributesSourced(opts: Options, used: seq<Binding>, rules: seq<AttributeRule>, values: seq<Option<string>>,
                                             all: seq<Binding>)
    requires OptionsOk(opts) && UsedOk(opts, used) && |rules| == |values|
    requires forall r :: r in rules ==> AttributeOk(r)
    requires AttributeItems(opts, used, rules, values).Some? && AttributeItems(opts, used, rules, values).value.used <= all
    ensures Sourced(AttributeItems(opts, used, rules, values).value.attrs, rules, all)
    decreases |rules|
  {
    hide OptionsOk, UsedOk, Named, PrefixFor, EncodeEntities, IsName;
    if rules != [] {
      var r := rules[0];
      assert r in rules;
      assert forall x :: x in rules[1..] ==> x in rules;
      if values[0].None? || values[0] == r.default {
        AttributesSourced(opts, used, rules[1..], values[1..], all);
      } else {
        var next := Named(opts, used, r.ns);
        NamedGrows(opts, used, r.ns);
        AttributesSourced(opts, next, rules[1..], values[1..], all);
        AttributesGrow(opts, next, rules[1..], values[1..]);
        var a := RawAttr(PrefixFor(opts, used, r.ns), r.local, EncodeEntities(values[0].value));
        assert next <= all;
        assert FromRule(a, r, all);
      }
    }
  }

  lemma TextSplits(p: string, l: string, q: string, m: string)
    requires ':' !in p && ':' !in q && p + ":" + l == q + ":" + m
    ensures p == q && l == m
  {
    var t := p + ":" + l;
    FirstColon(t, q, m, |p|);
    FirstColon(t, p, l, |q|);
    assert t[..|p|] == p && t[..|q|] == q;
    assert t[|p| + 1..] == l && t[|q| + 1..] == m;
  }

  lemma FirstColon(t: string, front: string, local: string, i: nat)
    requires t == front + ":" + local && ':' !in front && i < |t| && t[i] == ':'
    ensures i >= |front|
  {
    forall j | 0 <= j < |front| ensures t[j] != ':'
    {
      assert t[j] == front[j];
    }
  }

  lemma NoColon(s: string)
    requires IsName(s)
    ensures ':' !in s
  {
    hide IsNameChar;
    if ':' in s { Colon(); }
  }

  lemma OneUri(used: seq<Binding>, u: string, v: string, p: string)
    requires Apart(used) && Binding(u, p) in used && Binding(v, p) in used
    ensures u == v
  {
    var i :| 0 <= i < |used| && used[i] == Binding(u, p);
    var j :| 0 <= j < |used| && used[j] == Binding(v, p);
  }

  lemma BindingOk(opts: Options, used: seq<Binding>, b: Binding)
    requires OptionsOk(opts) && UsedOk(opts, used) && b in used
    ensures IsName(b.prefix) && b.prefix != "xmlns" && UriOk(b.uri)
  {
    hide OptionsOk, IsName, UriOk, NewPrefix;
    var i :| 0 <= i < |used| && used[i] == b;
    PrefixIsName(opts, used[..i], b.uri);
  }

  /** Attributes of different rules have different names, as long as namespaces have different prefixes. */
  lemma NamesDiffer(opts: Options, used: seq<Binding>, a: RawAttr, r: AttributeRule, b: RawAttr, q: AttributeRule)
    requires OptionsOk(opts) && UsedOk(opts, used) && Apart(used) && AttributeOk(r) && AttributeOk(q)
    requires FromRule(a, r, used) && FromRule(b, q, used) && NameOf(a).Text() == NameOf(b).Text()
    ensures RuleKey(r.local, r.ns) == RuleKey(q.local, q.ns)
  {
    hide OptionsOk, UsedOk, IsName, Apart;
    HasColon(opts, used, a, r);
    HasColon(opts, used, b, q);
    if r.ns.Some? && q.ns.Some? {
      TextSplits(a.prefix.value, a.local, b.prefix.value, b.local);
      OneUri(used, r.ns.value, q.ns.value, a.prefix.value);
    }
  }

  /** Exactly the names of attributes with a namespace hold a colon. */
  lemma HasColon(opts: Options, used: seq<Binding>, a: RawAttr, r: AttributeRule)
    requires OptionsOk(opts) && UsedOk(opts, used) && AttributeOk(r) && FromRule(a, r, used)
    ensures ':' in NameOf(a).Text() <==> r.ns.Some?
    ensures r.ns.Some? ==> ':' !in a.prefix.value
  {
    hide OptionsOk, UsedOk, IsName;
    NoColon(r.local);
    if r.ns.Some? {
      BindingOk(opts, used, Binding(r.ns.value, a.prefix.value));
      NoColon(a.prefix.value);
      assert NameOf(a).Text()[|a.prefix.value|] == ':';
    }
  }

  // ------------------------------------------------------------------ the tag can be printed

  /** One attribute is usable, whatever else the tag holds. */
  predicate AttrOk(a: RawAttr)
  {
    NameOk(a.prefix, a.local) && '"' !in a.raw
  }

  predicate TextsDiffer(attrs: seq<RawAttr>)
  {
    forall i, j :: 0 <= i < j < |attrs| ==> NameOf(attrs[i]).Text() != NameOf(attrs[j]).Text()
  }

  lemma {:induction false} AttrsOkIf(attrs: seq<RawAttr>, seen: set<string>)
    requires (forall a :: a in attrs ==> AttrOk(a)) && TextsDiffer(attrs)
    requires forall a :: a in attrs ==> NameOf(a).Text() !in seen
    ensures AttrsOk(attrs, seen)
    decreases |attrs|
  {
    hide NameOk, P.Name.Text;
    if attrs != [] {
      var t := NameOf(attrs[0]).Text();
      forall a | a in attrs[1..] ensures NameOf(a).Text() !in seen + {t}
      {
        var i :| 0 <= i < |attrs| - 1 && attrs[1..][i] == a;
        assert attrs[i + 1] == a;
      }
      assert attrs[0] in attrs;
      AttrsOkIf(attrs[1..], seen + {t});
    }
  }

  lemma RuleAttrOk(opts: Options, used: seq<Binding>, a: RawAttr, r: AttributeRule)
    requires OptionsOk(opts) && UsedOk(opts, used) && AttributeOk(r) && FromRule(a, r, used) && '"' !in a.raw
    ensures AttrOk(a) && NameOf(a).Text() != "xmlns" && a.prefix != Some("xmlns")
    ensures NameOf(a).Text() in INHERITED <==> InheritedName(r)
    ensures !(a.prefix.None? && a.local == "xmlns") && a.prefix != Some("")
  {
    hide OptionsOk, UsedOk, IsName;
    if r.ns.Some? {
      BindingOk(opts, used, Binding(r.ns.value, a.prefix.value));
      var t := NameOf(a).Text();
      assert t[|a.prefix.value|] == ':';
      Prefixed(t);
      NameNonempty(a.prefix.value);
    }
  }

  lemma NameNonempty(s: string)
    requires IsName(s)
    ensures s != ""
  {
  }

  /** Inherited names hold no colon. */
  lemma Prefixed(t: string)
    requires ':' in t
    ensures t !in INHERITED && t != "xmlns"
  {
  }

  lemma DeclarationOk(prefix: Option<string>, local: string, uri: string)
    requires '"' !in uri
    requires (prefix.None? && local == "xmlns") || (prefix == Some("xmlns") && IsName(local))
    ensures AttrOk(RawAttr(prefix, local, uri)) && NameOf(RawAttr(prefix, local, uri)).Text() !in INHERITED
  {
    XmlnsIsName();
    if prefix.Some? {
      var t := NameOf(RawAttr(prefix, local, uri)).Text();
      assert t[5] == ':';
      Prefixed(t);
    }
  }

  lemma XmlnsIsName()
    ensures IsName("xmlns")
  {
  }

  lemma {:induction false} EncodedValues(opts: Options, used: seq<Binding>, rules: seq<AttributeRule>, values: seq<Option<string>>)
    requires |rules| == |values| && AttributeItems(opts, used, rules, values).Some?
    ensures forall a :: a in AttributeItems(opts, used, rules, values).value.attrs ==> '"' !in a.raw
    decreases |rules|
  {
    hide EncodeEntities, Named, PrefixFor;
    if rules != [] {
      if values[0].None? || values[0] == rules[0].default {
        EncodedValues(opts, used, rules[1..], values[1..]);
      } else {
        EncodedIsClean(values[0].value);
        EncodedValues(opts, Named(opts, used, rules[0].ns), rules[1..], values[1..]);
      }
    }
  }

  lemma {:induction false} WrittenDiffer(opts: Options, used: seq<Binding>, rules: seq<AttributeRule>, values: seq<Option<string>>,
                                         all: seq<Binding>)
    requires OptionsOk(opts) && UsedOk(opts, used) && UsedOk(opts, all) && Apart(all) && |rules| == |values|
    requires (forall r :: r in rules ==> AttributeOk(r)) && DistinctAttributes(rules)
    requires AttributeItems(opts, used, rules, values).Some? && AttributeItems(opts, used, rules, values).value.used <= all
    ensures TextsDiffer(AttributeItems(opts, used, rules, values).value.attrs)
    decreases |rules|
  {
    hide OptionsOk, UsedOk, Named, PrefixFor, EncodeEntities, IsName, P.Name.Text, AttributeOk, FromRule, RuleKey, Apart;
    if rules != [] {
      var r := rules[0];
      assert r in rules;
      assert forall x :: x in rules[1..] ==> x in rules;
      if values[0].None? || values[0] == r.default {
        WrittenDiffer(opts, used, rules[1..], values[1..], all);
      } else {
        var next := Named(opts, used, r.ns);
        NsOfRule(r);
        NamedGrows(opts, used, r.ns);
        WrittenDiffer(opts, next, rules[1..], values[1..], all);
        AttributesSourced(opts, next, rules[1..], values[1..], all);
        AttributesGrow(opts, next, rules[1..], values[1..]);
        var a := RawAttr(PrefixFor(opts, used, r.ns), r.local, EncodeEntities(values[0].value));
        WrittenFrom(opts, used, r, a, all);
        var rest := AttributeItems(opts, next, rules[1..], values[1..]).value.attrs;
        forall j | 0 <= j < |rest| ensures NameOf(a).Text() != NameOf(rest[j]).Text()
        {
          assert rest[j] in rest;
          var q :| q in rules[1..] && FromRule(rest[j], q, all);
          var k :| 0 <= k < |rules| - 1 && rules[1..][k] == q;
          assert rules[k + 1] == q;
          if NameOf(a).Text() == NameOf(rest[j]).Text() { NamesDiffer(opts, all, a, r, rest[j], q); }
        }
        ConsDiffer(a, rest);
      }
    }
  }

  lemma NsOfRule(r: AttributeRule)
    requires AttributeOk(r)
    ensures NsOk(r.ns)
  {
  }

  lemma WrittenFrom(opts: Options, used: seq<Binding>, r: AttributeRule, a: RawAttr, all: seq<Binding>)
    requires OptionsOk(opts) && UsedOk(opts, used) && AttributeOk(r) && Named(opts, used, r.ns) <= all
    requires a.prefix == PrefixFor(opts, used, r.ns) && a.local == r.local
    ensures FromRule(a, r, all)
  {
    hide OptionsOk, UsedOk, Named, PrefixFor;
    NamedGrows(opts, used, r.ns);
  }

  lemma ConsDiffer(a: RawAttr, rest: seq<RawAttr>)
    requires TextsDiffer(rest) && forall j :: 0 <= j < |rest| ==> NameOf(a).Text() != NameOf(rest[j]).Text()
    ensures TextsDiffer([a] + rest)
  {
    hide P.Name.Text;
    var all := [a] + rest;
    assert forall j :: 1 <= j < |all| ==> all[j] == rest[j - 1];
  }

  lemma {:induction false} DeclarationsAre(opts: Options, used: seq<Binding>, k: nat)
    requires OptionsOk(opts) && UsedOk(opts, used) && k <= |used|
    ensures var d := Declarations(used[k..]);
            && |d| == |used| - k && (forall i :: 0 <= i < |d| ==> d[i] == RawAttr(Some("xmlns"), used[k + i].prefix, used[k + i].uri))
            && forall a :: a in d ==> AttrOk(a) && NameOf(a).Text() !in INHERITED
    decreases |used| - k
  {
    hide OptionsOk, UsedOk, AttrOk, IsName;
    if k < |used| {
      assert used[k..][1..] == used[k + 1..];
      DeclarationsAre(opts, used, k + 1);
      BindingOk(opts, used, used[k]);
      DeclarationOk(Some("xmlns"), used[k].prefix, used[k].uri);
    }
  }

  /** The declarations of a tag have different names exactly when the prefixes are different. */
  lemma DeclarationsDifferIff(opts: Options, used: seq<Binding>)
    requires OptionsOk(opts) && UsedOk(opts, used)
    ensures TextsDiffer(Declarations(used)) <==> Apart(used)
  {
    hide OptionsOk, UsedOk, AttrOk, IsName, P.Name.Text;
    assert used[0..] == used;
    DeclarationsAre(opts, used, 0);
    var d := Declarations(used);
    forall i, j | 0 <= i < j < |used| ensures NameOf(d[i]).Text() == NameOf(d[j]).Text() <==> used[i].prefix == used[j].prefix {
      SameText(d[i], d[j]);
    }
  }

  lemma SameText(a: RawAttr, b: RawAttr)
    requires a.prefix == b.prefix == Some("xmlns")
    ensures NameOf(a).Text() == NameOf(b).Text() <==> a.local == b.local
  {
    if NameOf(a).Text() == NameOf(b).Text() { Same(a.local, b.local); }
  }

  lemma Same(p: string, q: string)
    requires "xmlns" + ":" + p == "xmlns" + ":" + q
    ensures p == q
  {
    assert ("xmlns" + ":" + p)[6..] == p && ("xmlns" + ":" + q)[6..] == q;
  }

  lemma BothDifferIff(a: seq<RawAttr>, b: seq<RawAttr>)
    requires forall x, y :: x in a && y in b ==> NameOf(x).Text() != NameOf(y).Text()
    ensures TextsDiffer(a + b) <==> TextsDiffer(a) && TextsDiffer(b)
  {
    hide P.Name.Text;
    var all := a + b;
    assert forall i :: 0 <= i < |a| ==> all[i] == a[i];
    assert forall j :: 0 <= j < |b| ==> all[|a| + j] == b[j];
    if TextsDiffer(a) && TextsDiffer(b) {
      forall i, j | 0 <= i < j < |all| ensures NameOf(all[i]).Text() != NameOf(all[j]).Text()
      {
        if i < |a| <= j { assert all[i] in a && all[j] in b; }
        else if |a| <= i { assert all[i] == b[i - |a|] && all[j] == b[j - |a|]; }
      }
    } else if !TextsDiffer(b) {
      var i, j :| 0 <= i < j < |b| && NameOf(b[i]).Text() == NameOf(b[j]).Text();
      assert NameOf(all[|a| + i]).Text() == NameOf(all[|a| + j]).Text();
    }
  }

  /** The namespace part of a tag. */
  function Front(at: Place, ns: Option<string>, used: seq<Binding>): seq<RawAttr>
  {
    Declaration(at.xmlns, ns) + (if at.depth == 0 then Declarations(used) else [])
  }

  lemma FrontOk(opts: Options, at: Place, ns: Option<string>, used: seq<Binding>)
    requires OptionsOk(opts) && UsedOk(opts, used) && NsOk(ns)
    ensures forall a :: a in Front(at, ns, used) ==>
              AttrOk(a) && NameOf(a).Text() !in INHERITED && ((a.prefix.None? && a.local == "xmlns") || a.prefix == Some("xmlns"))
  {
    hide OptionsOk, UsedOk, AttrOk, IsName;
    assert used[0..] == used;
    DeclarationsAre(opts, used, 0);
    DeclarationOk(None, "xmlns", NsText(ns));
  }

  lemma FrontDiffersIff(opts: Options, at: Place, ns: Option<string>, used: seq<Binding>)
    requires OptionsOk(opts) && UsedOk(opts, used) && NsOk(ns)
    ensures TextsDiffer(Front(at, ns, used)) <==> at.depth == 0 ==> Apart(used)
  {
    hide OptionsOk, UsedOk, AttrOk, IsName, Apart, TextsDiffer, P.Name.Text;
    assert used[0..] == used;
    DeclarationsAre(opts, used, 0);
    DeclarationsDifferIff(opts, used);
    var d := if at.depth == 0 then Declarations(used) else [];
    forall x, y | x in Declaration(at.xmlns, ns) && y in d ensures NameOf(x).Text() != NameOf(y).Text()
    {
      var i :| 0 <= i < |d| && d[i] == y;
      TextLength(x, y);
    }
    FewDiffer(at, ns);
    BothDifferIff(Declaration(at.xmlns, ns), d);
  }

  lemma FewDiffer(at: Place, ns: Option<string>)
    ensures TextsDiffer(Declaration(at.xmlns, ns)) && TextsDiffer([])
  {
  }

  lemma TextLength(x: RawAttr, y: RawAttr)
    requires x.prefix.None? && x.local == "xmlns" && y.prefix == Some("xmlns")
    ensures NameOf(x).Text() != NameOf(y).Text()
  {
    assert |NameOf(y).Text()| == 6 + |y.local|;
  }

  /** Some name is one that every object has. */
  ghost predicate AnyInherited(attrs: seq<RawAttr>)
  {
    exists a :: a in attrs && NameOf(a).Text() in INHERITED
  }

  lemma {:induction false} AttrsOkNew(attrs: seq<RawAttr>, seen: set<string>)
    requires AttrsOk(attrs, seen)
    ensures forall a :: a in attrs ==> NameOf(a).Text() !in seen
    decreases |attrs|
  {
    hide NameOk, P.Name.Text;
    if attrs != [] { AttrsOkNew(attrs[1..], seen + {NameOf(attrs[0]).Text()}); }
  }

  /** An inherited name stands among the written attributes exactly when the object holds such an attribute. */
  lemma {:induction false} InheritedWritten(opts: Options, used: seq<Binding>, rules: seq<AttributeRule>, values: seq<Option<string>>)
    requires OptionsOk(opts) && UsedOk(opts, used) && |rules| == |values| && forall r :: r in rules ==> AttributeOk(r)
    requires AttributeItems(opts, used, rules, values).Some?
    ensures AnyInherited(AttributeItems(opts, used, rules, values).value.attrs) <==> !PlainAttributes(rules, values)
    decreases |rules|
  {
    hide OptionsOk, UsedOk, Named, PrefixFor, EncodeEntities, IsName, P.Name.Text, AttributeOk, InheritedName, AnyInherited, INHERITED;
    if rules == [] {
      NoneInherited();
    } else {
      var r := rules[0];
      assert r in rules;
      assert forall x :: x in rules[1..] ==> x in rules;
      PlainStep(rules, values);
      if values[0].None? || values[0] == r.default {
        InheritedWritten(opts, used, rules[1..], values[1..]);
      } else {
        NsOfRule(r);
        NamedGrows(opts, used, r.ns);
        var a := RawAttr(PrefixFor(opts, used, r.ns), r.local, EncodeEntities(values[0].value));
        InheritedWritten(opts, Named(opts, used, r.ns), rules[1..], values[1..]);
        EncodedIsClean(values[0].value);
        WrittenFrom(opts, used, r, a, Named(opts, used, r.ns));
        RuleAttrOk(opts, Named(opts, used, r.ns), a, r);
        OneInherited(a, AttributeItems(opts, Named(opts, used, r.ns), rules[1..], values[1..]).value.attrs);
      }
    }
  }

  lemma NoneInherited()
    ensures !AnyInherited([])
  {
  }

  lemma OneInherited(a: RawAttr, rest: seq<RawAttr>)
    ensures AnyInherited([a] + rest) <==> NameOf(a).Text() in INHERITED || AnyInherited(rest)
  {
    hide P.Name.Text, INHERITED;
    if AnyInherited(rest) {
      var x :| x in rest && NameOf(x).Text() in INHERITED;
      assert x in [a] + rest;
    }
    if NameOf(a).Text() in INHERITED { assert a in [a] + rest; }
  }

  lemma PlainStep(rules: seq<AttributeRule>, values: seq<Option<string>>)
    requires |rules| == |values| && rules != []
    ensures PlainAttributes(rules, values) <==>
              (InheritedName(rules[0]) ==> values[0].None? || values[0] == rules[0].default) && PlainAttributes(rules[1..], values[1..])
  {
    hide InheritedName;
    if PlainAttributes(rules[1..], values[1..]) {
      assert forall k :: 1 <= k < |rules| ==> rules[k] == rules[1..][k - 1] && values[k] == values[1..][k - 1];
    }
  }

  lemma {:induction false} AttrsOkDiffer(attrs: seq<RawAttr>, seen: set<string>)
    requires AttrsOk(attrs, seen)
    ensures TextsDiffer(attrs)
    decreases |attrs|
  {
    hide NameOk, P.Name.Text;
    if attrs != [] {
      var t := NameOf(attrs[0]).Text();
      AttrsOkDiffer(attrs[1..], seen + {t});
      AttrsOkNew(attrs[1..], seen + {t});
      assert attrs == [attrs[0]] + attrs[1..];
      assert forall j :: 0 <= j < |attrs| - 1 ==> attrs[1..][j] in attrs[1..];
      ConsDiffer(attrs[0], attrs[1..]);
    }
  }

  lemma DifferFront(a: seq<RawAttr>, b: seq<RawAttr>)
    requires TextsDiffer(a + b)
    ensures TextsDiffer(a)
  {
    hide P.Name.Text;
    assert forall i :: 0 <= i < |a| ==> (a + b)[i] == a[i];
  }

  /** A whole tag is printable, and it can be read back exactly when the object holds no attribute with an inherited
      name and, on a document element, which declares them, all namespaces in use have different prefixes. */
  lemma TagIff(opts: Options, used: seq<Binding>, rules: seq<AttributeRule>, values: seq<Option<string>>, at: Place,
               ns: Option<string>, all: seq<Binding>)
    requires OptionsOk(opts) && UsedOk(opts, used) && UsedOk(opts, all) && |rules| == |values| && NsOk(ns)
    requires (forall r :: r in rules ==> AttributeOk(r)) && DistinctAttributes(rules)
    requires AttributeItems(opts, used, rules, values).Some? && AttributeItems(opts, used, rules, values).value.used <= all
    ensures var tag := TagAttrs(at, ns, all, AttributeItems(opts, used, rules, values).value.attrs);
            && AttrsPrintable(tag)
            && (Apart(all) ==> (AttrsOk(tag, INHERITED) <==> PlainAttributes(rules, values)))
            && (!Apart(all) && at.depth == 0 ==> !AttrsOk(tag, INHERITED))
  {
    hide OptionsOk, UsedOk, AttributeItems, AttrsOk, FromRule, DistinctAttributes, P.Name.Text, AttributeOk, TextsDiffer,
         Front, TagAttrs, Sourced, NameOk, INHERITED, PlainAttributes, Apart;
    var attrs := AttributeItems(opts, used, rules, values).value.attrs;
    AttributesSourced(opts, used, rules, values, all);
    EncodedValues(opts, used, rules, values);
    FrontAndRest(opts, at, ns, all, rules, attrs);
    FrontOk(opts, at, ns, all);
    FrontDiffersIff(opts, at, ns, all);
    InheritedWritten(opts, used, rules, values);
    TagIs(at, ns, all, attrs);
    var front := Front(at, ns, all);
    var tag := front + attrs;
    if AttrsOk(tag, INHERITED) {
      AttrsOkDiffer(tag, INHERITED);
      DifferFront(front, attrs);
    }
    if Apart(all) {
      WrittenDiffer(opts, used, rules, values, all);
      if AnyInherited(attrs) {
        var a :| a in attrs && NameOf(a).Text() in INHERITED;
        assert a in tag;
        if AttrsOk(tag, INHERITED) { AttrsOkNew(tag, INHERITED); }
      } else {
        AttrsOkIf(tag, INHERITED);
      }
    }
  }

  lemma TagIs(at: Place, ns: Option<string>, used: seq<Binding>, attrs: seq<RawAttr>)
    ensures TagAttrs(at, ns, used, attrs) == Front(at, ns, used) + attrs
  {
    hide Declarations;
  }

  /** Declarations and attributes do not get in each other's way. */
  lemma FrontAndRest(opts: Options, at: Place, ns: Option<string>, all: seq<Binding>, rules: seq<AttributeRule>, attrs: seq<RawAttr>)
    requires OptionsOk(opts) && UsedOk(opts, all) && NsOk(ns)
    requires (forall r :: r in rules ==> AttributeOk(r)) && Sourced(attrs, rules, all)
    requires forall a :: a in attrs ==> '"' !in a.raw
    ensures TextsDiffer(Front(at, ns, all) + attrs) <==> TextsDiffer(Front(at, ns, all)) && TextsDiffer(attrs)
    ensures forall a :: a in Front(at, ns, all) + attrs ==> AttrOk(a)
  {
    hide OptionsOk, UsedOk, AttrOk, FromRule, P.Name.Text, AttributeOk, TextsDiffer, Front;
    var front := Front(at, ns, all);
    FrontOk(opts, at, ns, all);
    forall b | b in attrs ensures AttrOk(b)
    {
      var r :| r in rules && FromRule(b, r, all);
      RuleAttrOk(opts, all, b, r);
    }
    forall x, y | x in front && y in attrs ensures NameOf(x).Text() != NameOf(y).Text()
    {
      var r :| r in rules && FromRule(y, r, all);
      FrontName(opts, all, x, y, r);
    }
    BothDifferIff(front, attrs);
  }

  lemma FrontName(opts: Options, used: seq<Binding>, x: RawAttr, y: RawAttr, r: AttributeRule)
    requires OptionsOk(opts) && UsedOk(opts, used) && AttributeOk(r) && FromRule(y, r, used)
    requires (x.prefix.None? && x.local == "xmlns") || x.prefix == Some("xmlns")
    ensures NameOf(x).Text() != NameOf(y).Text()
  {
    hide OptionsOk, UsedOk, IsName;
    NoColon(r.local);
    if r.ns.Some? {
      BindingOk(opts, used, Binding(r.ns.value, y.prefix.value));
      NoColon(y.prefix.value);
      assert NameOf(y).Text()[|y.prefix.value|] == ':';
      if x.prefix.Some? && NameOf(x).Text() == NameOf(y).Text() {
        XmlnsIsName();
        NoColon("xmlns");
        TextSplits("xmlns", x.local, y.prefix.value, y.local);
      }
    } else if x.prefix.Some? {
      assert NameOf(x).Text()[5] == ':';
    }
  }
}
