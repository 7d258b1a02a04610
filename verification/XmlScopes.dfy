/** Namespaces survive: inside a start tag every name resolves to the namespace of its rule, and the handler sets
    exactly the properties the writer read. */
module XmlScopes {
  import opened Wrappers
  import opened Strings
  import opened XmlText
  import opened XmlRules
  import opened XmlHandling
  import opened XmlWriting
  import opened XmlNames
  import opened XmlScanning
  import opened XmlTags
  import P = XmlParsing

  lemma FrontStays<T>(a: seq<T>, b: seq<T>)
    requires a != []
    ensures (a + b)[0] == a[0] && (a + b)[1..] == a[1..] + b
  {
  }

  lemma Regrouped<T>(x: T, a: seq<T>, b: seq<T>)
    ensures [x] + (a + b) == ([x] + a) + b
  {
  }

  lemma {:induction false} DecodedAppend(a: seq<RawAttr>, b: seq<RawAttr>)
    ensures Decoded(a + b) == Decoded(a) + Decoded(b)
  {
    hide DecodeEntities;
    if a == [] {
      assert a + b == b;
    } else {
      DecodedAppend(a[1..], b);
      FrontStays(a, b);
      Regrouped(P.RawAttribute(NameOf(a[0]), DecodeEntities(a[0].raw)), Decoded(a[1..]), Decoded(b));
    }
  }

  lemma {:induction false} DecodedAt(a: seq<RawAttr>)
    ensures |Decoded(a)| == |a|
    ensures forall i :: 0 <= i < |a| ==> Decoded(a)[i] == P.RawAttribute(NameOf(a[i]), DecodeEntities(a[i].raw))
  {
    hide DecodeEntities;
    if a != [] {
      DecodedAt(a[1..]);
      assert forall i :: 1 <= i < |a| ==> a[i] == a[1..][i - 1];
    }
  }

  // ------------------------------------------------------------------ the default namespace

  lemma {:induction false} DefaultAppend(a: seq<P.RawAttribute>, b: seq<P.RawAttribute>, inherited: Option<string>)
    ensures P.DefaultNs(a + b, inherited) == P.DefaultNs(b, P.DefaultNs(a, inherited))
    decreases |b|
  {
    if b == [] {
      assert a + b == a;
    } else {
      assert (a + b)[..|a + b| - 1] == a + b[..|b| - 1];
      DefaultAppend(a, b[..|b| - 1], inherited);
    }
  }

  lemma {:induction false} NoDefault(a: seq<P.RawAttribute>, inherited: Option<string>)
    requires forall x :: x in a ==> !P.IsDefault(x)
    ensures P.DefaultNs(a, inherited) == inherited
  {
    if a != [] {
      assert a[|a| - 1] in a;
      NoDefault(a[..|a| - 1], inherited);
    }
  }

  /** Attributes that come from rules declare nothing. */
  lemma RulesDeclareNothing(opts: Options, used: seq<Binding>, rules: seq<AttributeRule>, attrs: seq<RawAttr>)
    requires OptionsOk(opts) && UsedOk(opts, used) && Sourced(attrs, rules, used)
    requires (forall r :: r in rules ==> AttributeOk(r)) && (forall a :: a in attrs ==> '"' !in a.raw)
    ensures forall x :: x in Decoded(attrs) ==> !P.IsDefault(x) && x.name.prefix != Some("xmlns") && x.name.prefix != Some("")
  {
    hide OptionsOk, UsedOk, AttrOk, FromRule, AttributeOk, DecodeEntities;
    DecodedAt(attrs);
    forall x | x in Decoded(attrs) ensures !P.IsDefault(x) && x.name.prefix != Some("xmlns") && x.name.prefix != Some("")
    {
      var i :| 0 <= i < |attrs| && Decoded(attrs)[i] == x;
      assert attrs[i] in attrs;
      var r :| r in rules && FromRule(attrs[i], r, used);
      RuleAttrOk(opts, used, attrs[i], r);
    }
  }

  /** A namespace as it is read: entities in it are decoded, though the writer does not encode any. */
  function ReadNs(ns: Option<string>): Option<string>
  {
    match ns case None => None case Some(u) => Some(DecodeEntities(u))
  }

  lemma UriRead(ns: Option<string>)
    requires NsOk(ns)
    ensures P.UriOf(DecodeEntities(NsText(ns))) == ReadNs(ns)
  {
    DecodeShrinks(NsText(ns));
  }

  lemma LiteralRead(ns: Option<string>)
    ensures LiteralNs(ns) <==> ReadNs(ns) == ns
  {
    hide DecodeEntities;
  }

  lemma {:induction false} DeclarationsDecoded(opts: Options, used: seq<Binding>)
    requires OptionsOk(opts) && UsedOk(opts, used)
    ensures var d := Decoded(Declarations(used));
            |d| == |used| && forall i :: 0 <= i < |used| ==>
              d[i] == P.RawAttribute(P.Name(Some("xmlns"), used[i].prefix), DecodeEntities(used[i].uri))
  {
    hide OptionsOk, UsedOk, DecodeEntities, IsName, AttrOk, TextsDiffer;
    assert used[0..] == used;
    DeclarationsAre(opts, used, 0);
    DecodedAt(Declarations(used));
  }

  /** Inside a tag the default namespace is the one the writer goes on with. */
  lemma DefaultBack(opts: Options, at: Place, ns: Option<string>, used: seq<Binding>, rules: seq<AttributeRule>, attrs: seq<RawAttr>)
    requires OptionsOk(opts) && UsedOk(opts, used) && NsOk(ns) && Sourced(attrs, rules, used)
    requires (forall r :: r in rules ==> AttributeOk(r)) && (forall a :: a in attrs ==> '"' !in a.raw)
    ensures P.DefaultNs(Decoded(TagAttrs(at, ns, used, attrs)), ReadNs(at.xmlns)) == ReadNs(ScopeOf(at.xmlns, ns))
  {
    hide OptionsOk, UsedOk, Sourced, DecodeEntities, AttributeOk, P.DefaultNs, ReadNs;
    var d := if at.depth == 0 then Declarations(used) else [];
    var head := Declaration(at.xmlns, ns);
    DecodedAppend(head, d + attrs);
    DecodedAppend(d, attrs);
    RulesDeclareNothing(opts, used, rules, attrs);
    DeclarationsDecoded(opts, used);
    var inner := ReadNs(ScopeOf(at.xmlns, ns));
    NoDefault(Decoded(d), inner);
    NoDefault(Decoded(attrs), inner);
    DefaultAppend(Decoded(head), Decoded(d) + Decoded(attrs), ReadNs(at.xmlns));
    DefaultAppend(Decoded(d), Decoded(attrs), inner);
    HeadDefault(at, ns);
  }

  lemma HeadDefault(at: Place, ns: Option<string>)
    requires NsOk(ns)
    ensures P.DefaultNs(Decoded(Declaration(at.xmlns, ns)), ReadNs(at.xmlns)) == ReadNs(ScopeOf(at.xmlns, ns))
  {
    hide DecodeEntities;
    UriRead(ns);
    var head := Declaration(at.xmlns, ns);
    DecodedAt(head);
    if head != [] { assert Decoded(head)[..0] == []; }
  }

  // ------------------------------------------------------------------ prefixes

  lemma {:induction false} PrefixesAppend(a: seq<P.RawAttribute>, b: seq<P.RawAttribute>)
    ensures P.Prefixes(a + b) == P.Prefixes(a) + P.Prefixes(b)
    decreases |b|
  {
    if b == [] {
      assert a + b == a;
    } else {
      assert (a + b)[..|a + b| - 1] == a + b[..|b| - 1];
      PrefixesAppend(a, b[..|b| - 1]);
    }
  }

  lemma {:induction false} NoPrefixes(a: seq<P.RawAttribute>)
    requires forall x :: x in a ==> x.name.prefix != Some("xmlns")
    ensures P.Prefixes(a) == map[]
  {
    if a != [] {
      assert a[|a| - 1] in a;
      NoPrefixes(a[..|a| - 1]);
    }
  }

  lemma {:induction false} PrefixesOf(opts: Options, used: seq<Binding>, d: seq<P.RawAttribute>)
    requires OptionsOk(opts) && UsedOk(opts, used) && Apart(used) && |d| <= |used|
    requires forall i :: 0 <= i < |d| ==> d[i] == P.RawAttribute(P.Name(Some("xmlns"), used[i].prefix), DecodeEntities(used[i].uri))
    ensures forall i :: 0 <= i < |d| ==>
              used[i].prefix in P.Prefixes(d) && P.Prefixes(d)[used[i].prefix] == Some(DecodeEntities(used[i].uri))
    decreases |d|
  {
    hide OptionsOk, UsedOk, IsName, DecodeEntities;
    if d != [] {
      var n := |d| - 1;
      PrefixesOf(opts, used, d[..n]);
      BindingOk(opts, used, used[n]);
      UriRead(Some(used[n].uri));
    }
  }

  ghost predicate Binds(scopes: seq<P.Scope>, used: seq<Binding>)
  {
    forall b :: b in used ==> P.Lookup(scopes, b.prefix) == Some(DecodeEntities(b.uri))
  }

  /** Inside a tag every prefix in use is bound: by the tag itself on a document element, by the one around it otherwise. */
  lemma PrefixesBack(opts: Options, at: Place, ns: Option<string>, used: seq<Binding>, rules: seq<AttributeRule>, attrs: seq<RawAttr>,
                     scopes: seq<P.Scope>, name: P.Name)
    requires OptionsOk(opts) && UsedOk(opts, used) && NsOk(ns) && Sourced(attrs, rules, used) && scopes != []
    requires (forall r :: r in rules ==> AttributeOk(r)) && (forall a :: a in attrs ==> '"' !in a.raw)
    requires if at.depth > 0 then Binds(scopes, used) else Apart(used)
    ensures Binds(P.Entered(scopes, name, Decoded(TagAttrs(at, ns, used, attrs))), used)
  {
    hide OptionsOk, UsedOk, Sourced, DecodeEntities, AttributeOk, P.DefaultNs, P.Prefixes, IsName;
    var d := if at.depth == 0 then Declarations(used) else [];
    var head := Declaration(at.xmlns, ns);
    DecodedAppend(head, d + attrs);
    DecodedAppend(d, attrs);
    RulesDeclareNothing(opts, used, rules, attrs);
    NoPrefixes(Decoded(attrs));
    DecodedAt(head);
    NoPrefixes(Decoded(head));
    PrefixesAppend(Decoded(head), Decoded(d) + Decoded(attrs));
    PrefixesAppend(Decoded(d), Decoded(attrs));
    var all := P.Prefixes(Decoded(TagAttrs(at, ns, used, attrs)));
    assert all == P.Prefixes(Decoded(d));
    DeclarationsDecoded(opts, used);
    var inner := P.Entered(scopes, name, Decoded(TagAttrs(at, ns, used, attrs)));
    assert inner[..|inner| - 1] == scopes;
    if at.depth == 0 {
      PrefixesOf(opts, used, Decoded(d));
      forall b | b in used ensures P.Lookup(inner, b.prefix) == Some(DecodeEntities(b.uri))
      {
        var i :| 0 <= i < |used| && used[i] == b;
      }
    } else {
      NoPrefixes(Decoded(d));
    }
  }

  // ------------------------------------------------------------------ attributes as the handler sees them

  lemma {:induction false} ResolvedAppend(scopes: seq<P.Scope>, a: seq<P.RawAttribute>, b: seq<P.RawAttribute>)
    ensures P.Resolved(scopes, a + b) == P.Resolved(scopes, a) + P.Resolved(scopes, b)
  {
    hide P.AttributeNs;
    if a == [] {
      assert a + b == b;
    } else {
      ResolvedAppend(scopes, a[1..], b);
      FrontStays(a, b);
      Regrouped(Attribute(a[0].name.local, P.AttributeNs(scopes, a[0]), a[0].value), P.Resolved(scopes, a[1..]), P.Resolved(scopes, b));
    }
  }

  lemma {:induction false} AssignAppend(rules: seq<AttributeRule>, values: seq<Option<string>>, a: seq<Attribute>, b: seq<Attribute>)
    ensures AssignAll(rules, values, a + b) == AssignAll(rules, AssignAll(rules, values, a), b)
    decreases |a|
  {
    hide Assign;
    if a == [] {
      assert a + b == b;
    } else {
      AssignAppend(rules, Assign(rules, values, a[0]), a[1..], b);
      assert (a + b)[1..] == a[1..] + b;
    }
  }

  /** No rule matches a declaration. */
  lemma DeclarationUnmatched(rules: seq<AttributeRule>, local: string)
    requires (forall r :: r in rules ==> AttributeOk(r)) && ':' !in local
    ensures FindAttribute(rules, RuleKey(local, Some(XMLNS))) == None
  {
    var key := RuleKey(local, Some(XMLNS));
    FoundAttribute(rules, key);
    var i := FindAttribute(rules, key);
    if i.Some? {
      var r := rules[i.value];
      assert r in rules;
      NotXmlns(r, local);
    }
  }

  lemma NotXmlns(r: AttributeRule, local: string)
    requires AttributeOk(r) && ':' !in local
    ensures RuleKey(r.local, r.ns) != RuleKey(local, Some(XMLNS))
  {
    hide RuleKey, IsName, UriOk;
    NoColon(r.local);
    if RuleKey(r.local, r.ns) == RuleKey(local, Some(XMLNS)) {
      KeyInjective(r.local, r.ns, local, Some(XMLNS));
      XmlnsIsNotEmpty();
    }
  }

  lemma XmlnsIsNotEmpty()
    ensures XMLNS != ""
  {
  }

  /** The declarations of a tag set no property. */
  lemma {:induction false} FrontAssigns(rules: seq<AttributeRule>, values: seq<Option<string>>, scopes: seq<P.Scope>, front: seq<P.RawAttribute>)
    requires forall r :: r in rules ==> AttributeOk(r)
    requires forall a :: a in front ==> ':' !in a.name.local && (a.name.prefix == Some("xmlns") || P.IsDefault(a))
    ensures AssignAll(rules, values, P.Resolved(scopes, front)) == values
    decreases |front|
  {
    hide RuleKey, AttributeOk;
    if front != [] {
      assert front[0] in front;
      DeclarationUnmatched(rules, front[0].name.local);
      FrontAssigns(rules, values, scopes, front[1..]);
      var r := P.Resolved(scopes, front);
      assert r[1..] == P.Resolved(scopes, front[1..]);
    }
  }

  /** The values that are written, the rest missing. */
  function Present(rules: seq<AttributeRule>, values: seq<Option<string>>): (p: seq<Option<string>>)
    requires |rules| == |values|
    ensures |p| == |rules|
  {
    if rules == [] then []
    else [if Writes(rules[0], values[0]) then values[0] else None] + Present(rules[1..], values[1..])
  }

  lemma {:induction false} KeyFinds(rules: seq<AttributeRule>, i: nat)
    requires DistinctAttributes(rules) && i < |rules|
    ensures FindAttribute(rules, RuleKey(rules[i].local, rules[i].ns)) == Some(i)
  {
    hide RuleKey;
    var key := RuleKey(rules[i].local, rules[i].ns);
    FoundAttribute(rules, key);
  }

  lemma RuleNs(opts: Options, used: seq<Binding>, scopes: seq<P.Scope>, a: RawAttr, r: AttributeRule)
    requires OptionsOk(opts) && UsedOk(opts, used) && AttributeOk(r) && FromRule(a, r, used) && Binds(scopes, used)
    ensures P.AttributeNs(scopes, P.RawAttribute(NameOf(a), DecodeEntities(a.raw))) == ReadNs(r.ns)
  {
    hide OptionsOk, UsedOk, IsName, DecodeEntities;
    if r.ns.Some? {
      BindingOk(opts, used, Binding(r.ns.value, a.prefix.value));
      NameNonempty(a.prefix.value);
    }
  }

  /** From rule `k` on: the written attributes set the properties of their rules. */
  lemma {:induction false} WrittenAssign(opts: Options, used: seq<Binding>, rules: seq<AttributeRule>, values: seq<Option<string>>, k: nat,
                                         done: seq<Option<string>>, all: seq<Binding>, scopes: seq<P.Scope>)
    requires OptionsOk(opts) && UsedOk(opts, used) && UsedOk(opts, all) && |rules| == |values| == |done| && k <= |rules|
    requires (forall r :: r in rules ==> AttributeOk(r)) && DistinctAttributes(rules) && Binds(scopes, all)
    requires LiteralAttributes(rules, values)
    requires AttributeItems(opts, used, rules[k..], values[k..]).Some?
    requires AttributeItems(opts, used, rules[k..], values[k..]).value.used <= all
    requires forall i :: k <= i < |done| ==> done[i] == None
    ensures var attrs := AttributeItems(opts, used, rules[k..], values[k..]).value.attrs;
            AssignAll(rules, done, P.Resolved(scopes, Decoded(attrs))) == done[..k] + Present(rules[k..], values[k..])
    decreases |rules| - k
  {
    hide OptionsOk, UsedOk, Named, PrefixFor, EncodeEntities, DecodeEntities, AttributeOk, RuleKey, DistinctAttributes, Binds,
         P.AttributeNs, FindAttribute, FromRule, LiteralNs, ReadNs;
    if k < |rules| {
      var r, v := rules[k], values[k];
      assert rules[k..][0] == r && values[k..][0] == v;
      assert rules[k..][1..] == rules[k + 1..] && values[k..][1..] == values[k + 1..];
      if v.None? || v == r.default {
        WrittenAssign(opts, used, rules, values, k + 1, done, all, scopes);
        assert done[..k + 1] == done[..k] + [None];
        Shift(done[..k], None, Present(rules[k + 1..], values[k + 1..]));
      } else {
        var next := Named(opts, used, r.ns);
        NsOfRule(r);
        NamedGrows(opts, used, r.ns);
        assert forall x :: x in rules[k + 1..] ==> x in rules;
        AttributesGrow(opts, next, rules[k + 1..], values[k + 1..]);
        var a := RawAttr(PrefixFor(opts, used, r.ns), r.local, EncodeEntities(v.value));
        var rest := AttributeItems(opts, next, rules[k + 1..], values[k + 1..]).value.attrs;
        WrittenFrom(opts, used, r, a, all);
        RuleNs(opts, all, scopes, a, r);
        LiteralRead(r.ns);
        DecodeEncode(v.value);
        KeyFinds(rules, k);
        var done1 := done[k := v];
        WrittenAssign(opts, next, rules, values, k + 1, done1, all, scopes);
        assert done1[..k + 1] == done[..k] + [v];
        Shift(done[..k], v, Present(rules[k + 1..], values[k + 1..]));
        OneAssign(rules, done, scopes, a, rest, k, v, r.ns);
      }
    } else {
      assert rules[k..] == [] && done[..k] == done;
      assert done + [] == done;
    }
  }

  lemma OneAssign(rules: seq<AttributeRule>, done: seq<Option<string>>, scopes: seq<P.Scope>, a: RawAttr, rest: seq<RawAttr>,
                  k: nat, v: Option<string>, ns: Option<string>)
    requires k < |done| && FindAttribute(rules, RuleKey(a.local, ns)) == Some(k) && v == Some(DecodeEntities(a.raw))
    requires P.AttributeNs(scopes, P.RawAttribute(NameOf(a), DecodeEntities(a.raw))) == ns
    ensures AssignAll(rules, done, P.Resolved(scopes, Decoded([a] + rest)))
         == AssignAll(rules, done[k := v], P.Resolved(scopes, Decoded(rest)))
  {
    hide RuleKey, P.AttributeNs, FindAttribute, DecodeEntities;
    assert ([a] + rest)[1..] == rest;
    var d := Decoded([a] + rest);
    assert d[1..] == Decoded(rest);
    var r := P.Resolved(scopes, d);
    assert r[1..] == P.Resolved(scopes, Decoded(rest));
    assert r[0] == Attribute(a.local, ns, DecodeEntities(a.raw));
  }

  lemma Shift<T>(a: seq<T>, x: T, b: seq<T>)
    ensures (a + [x]) + b == a + ([x] + b)
  {
  }

  lemma FrontDecoded(opts: Options, at: Place, ns: Option<string>, used: seq<Binding>)
    requires OptionsOk(opts) && UsedOk(opts, used) && NsOk(ns)
    ensures forall a :: a in Decoded(Front(at, ns, used)) ==> ':' !in a.name.local && (a.name.prefix == Some("xmlns") || P.IsDefault(a))
  {
    hide OptionsOk, UsedOk, IsName, DecodeEntities, NameOk;
    var front := Front(at, ns, used);
    FrontOk(opts, at, ns, used);
    DecodedAt(front);
    forall a | a in Decoded(front) ensures ':' !in a.name.local && (a.name.prefix == Some("xmlns") || P.IsDefault(a))
    {
      var i :| 0 <= i < |front| && Decoded(front)[i] == a;
      assert front[i] in front;
      LocalPlain(front[i]);
    }
  }

  lemma LocalPlain(a: RawAttr)
    requires AttrOk(a)
    ensures ':' !in a.local
  {
    hide IsName;
    NoColon(a.local);
  }

  /** The handler reads out of a tag exactly what the writer put into it. */
  lemma AssignBack(opts: Options, used: seq<Binding>, rules: seq<AttributeRule>, values: seq<Option<string>>, at: Place,
                   ns: Option<string>, all: seq<Binding>, scopes: seq<P.Scope>)
    requires OptionsOk(opts) && UsedOk(opts, used) && UsedOk(opts, all) && |rules| == |values| && NsOk(ns)
    requires (forall r :: r in rules ==> AttributeOk(r)) && DistinctAttributes(rules) && Binds(scopes, all)
    requires LiteralAttributes(rules, values)
    requires AttributeItems(opts, used, rules, values).Some? && AttributeItems(opts, used, rules, values).value.used <= all
    ensures var attrs := AttributeItems(opts, used, rules, values).value.attrs;
            AssignAll(rules, seq(|rules|, _ => None), P.Resolved(scopes, Decoded(TagAttrs(at, ns, all, attrs)))) == Present(rules, values)
  {
    hide OptionsOk, UsedOk, AttributeItems, AttributeOk, DistinctAttributes, Binds, Front, P.Resolved, Decoded, TagAttrs, AssignAll,
         LiteralAttributes;
    var attrs := AttributeItems(opts, used, rules, values).value.attrs;
    var blank: seq<Option<string>> := seq(|rules|, _ => None);
    TagIs(at, ns, all, attrs);
    DecodedAppend(Front(at, ns, all), attrs);
    ResolvedAppend(scopes, Decoded(Front(at, ns, all)), Decoded(attrs));
    AssignAppend(rules, blank, P.Resolved(scopes, Decoded(Front(at, ns, all))), P.Resolved(scopes, Decoded(attrs)));
    FrontDecoded(opts, at, ns, all);
    FrontAssigns(rules, blank, scopes, Decoded(Front(at, ns, all)));
    assert rules[0..] == rules && values[0..] == values;
    WrittenAssign(opts, used, rules, values, 0, blank, all, scopes);
    assert blank[..0] + Present(rules, values) == Present(rules, values);
  }

  /** Nothing required is missing, and the defaults make up for what was not written. */
  lemma {:induction false} PresentFills(opts: Options, used: seq<Binding>, rules: seq<AttributeRule>, values: seq<Option<string>>)
    requires |rules| == |values| && AttributeItems(opts, used, rules, values).Some?
    ensures !Missing(rules, Present(rules, values))
    ensures Defaults(rules, Present(rules, values)) == Defaults(rules, values)
    decreases |rules|
  {
    hide Named, PrefixFor, EncodeEntities;
    if rules != [] {
      if values[0].None? || values[0] == rules[0].default {
        PresentFills(opts, used, rules[1..], values[1..]);
      } else {
        PresentFills(opts, Named(opts, used, rules[0].ns), rules[1..], values[1..]);
      }
      var p := Present(rules, values);
      assert p[1..] == Present(rules[1..], values[1..]);
      forall i | 0 <= i < |rules| ensures !(p[i].None? && rules[i].default.None? && rules[i].required)
      {
        if i > 0 { assert p[i] == p[1..][i - 1] && rules[i] == rules[1..][i - 1]; }
      }
    }
  }
}
