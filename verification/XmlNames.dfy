/** The prefixes a document uses: each stands for one namespace, and they are told apart. */
module XmlNames {
  import opened Wrappers
  import opened Strings
  import opened XmlText
  import opened XmlRules
  import opened XmlWriting

  // ------------------------------------------------------------------ base 36

  lemma DigitsDiffer(a: nat, b: nat)
    requires a < 36 && b < 36 && Digit36(a) == Digit36(b)
    ensures a == b
  {
    DigitValue36(a);
    DigitValue36(b);
  }

  lemma DigitValue36(n: nat)
    requires n < 36
    ensures Digit36(n) as int == if n < 10 then '0' as int + n else 'a' as int + n - 10
  {
  }

  lemma {:induction false} Base36Injective(a: nat, b: nat)
    requires Base36(a) == Base36(b)
    ensures a == b
  {
    hide Digit36;
    if a < 36 && b < 36 {
      assert Base36(a)[0] == Base36(b)[0];
      DigitsDiffer(a, b);
    } else if a >= 36 && b >= 36 {
      var x, y := Base36(a), Base36(b);
      assert x[|x| - 1] == Digit36(a % 36) && y[|y| - 1] == Digit36(b % 36);
      DigitsDiffer(a % 36, b % 36);
      assert x[..|x| - 1] == Base36(a / 36) && y[..|y| - 1] == Base36(b / 36);
      Base36Injective(a / 36, b / 36);
    } else {
      Base36Long(a);
      Base36Long(b);
    }
  }

  lemma {:induction false} Base36Long(n: nat)
    ensures |Base36(n)| >= 1 && (n >= 36 ==> |Base36(n)| >= 2)
  {
    if n >= 36 { Base36Long(n / 36); }
  }

  lemma {:induction false} Base36IsName(n: nat)
    ensures IsName(Base36(n))
  {
    if n < 36 {
      DigitValue36(n);
    } else {
      Base36IsName(n / 36);
      DigitValue36(n % 36);
    }
  }

  // ------------------------------------------------------------------ bindings

  /** Line breaks and indentation are white, and the given prefixes are names. */
  predicate OptionsOk(opts: Options)
  {
    && AllWhite(opts.indent) && AllWhite(opts.newline)
    && (forall u :: u in opts.prefixMap ==> IsName(opts.prefixMap[u]) && opts.prefixMap[u] != "xmlns")
  }

  /** Bindings as the writer makes them. */
  predicate UsedOk(opts: Options, used: seq<Binding>)
  {
    && (forall i :: 0 <= i < |used| ==> UriOk(used[i].uri) && used[i].prefix == NewPrefix(opts, used[..i], used[i].uri))
    && (forall i, j :: 0 <= i < j < |used| ==> used[i].uri != used[j].uri)
  }

  lemma PrefixIsName(opts: Options, used: seq<Binding>, uri: string)
    requires OptionsOk(opts)
    ensures var p := NewPrefix(opts, used, uri); IsName(p) && p != "xmlns"
  {
    hide AllWhite;
    if uri !in opts.prefixMap {
      Base36IsName(|used| + 1);
      var p := "ns_" + Base36(|used| + 1);
      assert p[0] == 'n';
      NameCharRanges('n');
      NameCharRanges('s');
      NameCharRanges('_');
    }
  }

  /** No two namespaces share a prefix. */
  predicate Apart(used: seq<Binding>)
  {
    forall i, j :: 0 <= i < j < |used| ==> used[i].prefix != used[j].prefix
  }

  lemma ApartFront(used: seq<Binding>, all: seq<Binding>)
    requires Apart(all) && used <= all
    ensures Apart(used)
  {
    assert forall i :: 0 <= i < |used| ==> used[i] == all[i];
  }

  /** Two namespaces share a prefix exactly when the map gives both the same, or gives one of them the prefix that is made
      up for the other: `ns_` and the other's place in the order of use, in base 36. */
  lemma PrefixesClashIff(opts: Options, used: seq<Binding>, i: nat, j: nat)
    requires UsedOk(opts, used) && i < |used| && j < |used| && i != j
    ensures var u, v := used[i].uri, used[j].uri;
            var map_ := opts.prefixMap;
            used[i].prefix == used[j].prefix <==>
              || (u in map_ && v in map_ && map_[u] == map_[v])
              || (u in map_ && v !in map_ && map_[u] == "ns_" + Base36(j + 1))
              || (u !in map_ && v in map_ && map_[v] == "ns_" + Base36(i + 1))
  {
    hide Base36, UriOk;
    var u, v := used[i].uri, used[j].uri;
    assert |used[..i]| == i && |used[..j]| == j;
    if u !in opts.prefixMap && v !in opts.prefixMap {
      var p, q := "ns_" + Base36(i + 1), "ns_" + Base36(j + 1);
      if p == q {
        assert p[3..] == Base36(i + 1) && q[3..] == Base36(j + 1);
        Base36Injective(i + 1, j + 1);
      }
    }
  }

  predicate Generated(prefix: string)
  {
    |prefix| >= 3 && prefix[..3] == "ns_"
  }

  /** A map of different prefixes that do not begin like the made-up ones keeps all namespaces apart. */
  lemma PrefixesDiffer(opts: Options, used: seq<Binding>)
    requires UsedOk(opts, used)
    requires forall u :: u in opts.prefixMap ==> !Generated(opts.prefixMap[u])
    requires forall u, v :: u in opts.prefixMap && v in opts.prefixMap && u != v ==> opts.prefixMap[u] != opts.prefixMap[v]
    ensures Apart(used)
  {
    hide Base36, UriOk, NewPrefix;
    forall i, j | 0 <= i < j < |used| ensures used[i].prefix != used[j].prefix {
      PrefixesClashIff(opts, used, i, j);
      assert Generated("ns_" + Base36(i + 1)) && Generated("ns_" + Base36(j + 1));
    }
  }

  lemma {:induction false} PrefixFound(used: seq<Binding>, uri: string)
    ensures PrefixOf(used, uri).Some? ==> Binding(uri, PrefixOf(used, uri).value) in used
    ensures PrefixOf(used, uri).None? ==> forall b :: b in used ==> b.uri != uri
  {
    if used != [] && used[0].uri != uri { PrefixFound(used[1..], uri); }
  }

  /** Taking a prefix keeps what was there. */
  lemma NamedGrows(opts: Options, used: seq<Binding>, ns: Option<string>)
    requires OptionsOk(opts) && UsedOk(opts, used) && NsOk(ns)
    ensures var u := Named(opts, used, ns);
            && used <= u && UsedOk(opts, u)
            && (ns.Some? ==> PrefixFor(opts, used, ns).Some? && Binding(ns.value, PrefixFor(opts, used, ns).value) in u)
            && (ns.None? ==> PrefixFor(opts, used, ns).None?)
  {
    hide OptionsOk, NewPrefix, UsedOk, PrefixOf, UriOk;
    if ns.Some? {
      NsNonempty(ns.value);
      PrefixFound(used, ns.value);
      var b := Binding(ns.value, NewPrefix(opts, used, ns.value));
      BoundIs(used, b);
      if PrefixOf(used, ns.value).None? {
        OneMoreBinding(opts, used, b);
        assert b in used + [b];
      }
    }
  }

  lemma NsNonempty(uri: string)
    requires UriOk(uri)
    ensures uri != ""
  {
  }

  lemma OneMoreBinding(opts: Options, used: seq<Binding>, b: Binding)
    requires UsedOk(opts, used) && UriOk(b.uri) && b.prefix == NewPrefix(opts, used, b.uri) && forall x :: x in used ==> x.uri != b.uri
    ensures UsedOk(opts, used + [b])
  {
    hide NewPrefix, UriOk;
    var all := used + [b];
    assert forall i :: 0 <= i < |used| ==> all[i] == used[i] && all[..i] == used[..i];
    assert all[|used|] == b && all[..|used|] == used;
    assert forall i :: 0 <= i < |used| ==> used[i] in used;
  }

  lemma {:induction false} AttributesGrow(opts: Options, used: seq<Binding>, rules: seq<AttributeRule>, values: seq<Option<string>>)
    requires OptionsOk(opts) && UsedOk(opts, used) && |rules| == |values|
    requires forall r :: r in rules ==> AttributeOk(r)
    ensures var a := AttributeItems(opts, used, rules, values);
            a.Some? ==> used <= a.value.used && UsedOk(opts, a.value.used)
    decreases |rules|
  {
    hide OptionsOk, UsedOk, Named, PrefixFor, EncodeEntities, IsName;
    if rules != [] {
      assert rules[0] in rules;
      NamedGrows(opts, used, rules[0].ns);
      AttributesGrow(opts, used, rules[1..], values[1..]);
      AttributesGrow(opts, Named(opts, used, rules[0].ns), rules[1..], values[1..]);
    }
  }

  lemma {:induction false} ElementGrows(schema: Schema, opts: Options, used: seq<Binding>, o: Obj, rule: ElementRule, at: Place)
    requires OptionsOk(opts) && SchemaOk(schema) && UsedOk(opts, used) && ElementOk(schema, rule) && Shaped(schema, rule.rules, o)
    ensures var w := ElementItems(schema, opts, used, o, rule, at);
            w.Some? ==> used <= w.value.used && UsedOk(opts, w.value.used)
    decreases o
  {
    hide OptionsOk, UsedOk, Named, PrefixFor, AttributeItems, ChildItems, ElementItems, Wrap, TagAttrs, AllShaped, DistinctElements,
         DistinctAttributes, AttributeOk, IsName;
    assert schema[rule.rules] in schema;
    ElementIs(schema, opts, used, o, rule, at);
    AttributesGrow(opts, used, schema[rule.rules].attributes, o.attributes);
    var a := AttributeItems(opts, used, schema[rule.rules].attributes, o.attributes);
    if a.Some? {
      ChildrenGrow(schema, opts, a.value.used, schema[rule.rules].elements, o.fields, Below(opts, at, rule.ns));
      var c := ChildItems(schema, opts, a.value.used, schema[rule.rules].elements, o.fields, Below(opts, at, rule.ns));
      if c.Some? { NamedGrows(opts, c.value.used, rule.ns); }
    }
  }

  lemma {:induction false} ChildrenGrow(schema: Schema, opts: Options, used: seq<Binding>, rules: seq<ElementRule>, fs: seq<Field>, at: Place)
    requires OptionsOk(opts) && SchemaOk(schema) && UsedOk(opts, used) && AllShaped(schema, rules, fs)
    requires forall r :: r in rules ==> ElementOk(schema, r)
    ensures var w := ChildItems(schema, opts, used, rules, fs, at);
            w.Some? ==> used <= w.value.used && UsedOk(opts, w.value.used)
    decreases fs
  {
    hide OptionsOk, UsedOk, ListItems, Counted, ListShaped, IsName;
    if fs != [] {
      assert rules[0] in rules;
      ListGrows(schema, opts, used, rules[0], fs[0].items, at);
      var w := ListItems(schema, opts, used, rules[0], fs[0].items, at);
      if w.Some? { ChildrenGrow(schema, opts, w.value.used, rules[1..], fs[1..], at); }
    }
  }

  lemma {:induction false} ListGrows(schema: Schema, opts: Options, used: seq<Binding>, rule: ElementRule, items: seq<Obj>, at: Place)
    requires OptionsOk(opts) && SchemaOk(schema) && UsedOk(opts, used) && ElementOk(schema, rule) && ListShaped(schema, rule.rules, items)
    ensures var w := ListItems(schema, opts, used, rule, items, at);
            w.Some? ==> used <= w.value.used && UsedOk(opts, w.value.used)
    decreases items
  {
    hide OptionsOk, UsedOk, ElementItems, Shaped, IsName, Led;
    if items != [] {
      ElementGrows(schema, opts, used, items[0], rule, at);
      var w := ElementItems(schema, opts, used, items[0], rule, at);
      if w.Some? { ListGrows(schema, opts, w.value.used, rule, items[1..], at); }
    }
  }
}
