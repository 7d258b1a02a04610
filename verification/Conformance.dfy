/** When a value conforms to a validator, said of the value alone, and which places of it are wrong. */
module Conformance {
  import opened Strings
  import opened Wrappers
  import opened Validation

  /** The entry with this key, the first one if there are several. */
  predicate Stands(x: Value, key: string, j: nat)
  {
    x.Thing? && j < |x.entries| && x.entries[j].key == key && forall i :: 0 <= i < j ==> x.entries[i].key != key
  }

  predicate Lacks(x: Value, key: string)
  {
    x.Thing? ==> forall j :: 0 <= j < |x.entries| ==> x.entries[j].key != key
  }

  /** The value is as the validator asks, part by part. */
  predicate Conforms(v: Validator, x: Value)
    decreases v
  {
    match v
    case Leaf(test) => test(x)
    case And(parts) => forall i :: 0 <= i < |parts| ==> Conforms(parts[i], x)
    case Or(parts) => exists i :: 0 <= i < |parts| && Conforms(parts[i], x)
    case Properties(props) =>
      && (x.Thing? || props == [])
      && forall i :: 0 <= i < |props| ==>
           || (props[i].optional && Lacks(x, props[i].key))
           || exists j: nat | j < |x.entries| :: Stands(x, props[i].key, j) && Conforms(props[i].validator, x.entries[j].value)
    case WithElements(element) =>
      (match Indexed(x) case Throws => false case NoLength => true
       case Items(s) => forall i :: 0 <= i < |s| ==> Conforms(element, s[i]))
    case Tuple(parts) =>
      (match Indexed(x) case Items(s) => |s| == |parts| && forall i :: 0 <= i < |s| ==> Conforms(parts[i], s[i]) case _ => false)
    case RecordOf(key, value) =>
      x.Thing? && forall i :: 0 <= i < |x.entries| ==> Conforms(key, Text(x.entries[i].key)) && Conforms(value, x.entries[i].value)
    case SetOf(element) =>
      (match Iterated(x) case None => false case Some(s) => forall i :: 0 <= i < |s| ==> Conforms(element, s[i]))
    case Schema(_, current, previous, _) => Conforms(current, x) && (previous.Some? ==> Conforms(previous.value, x))
  }

  lemma {:induction false} LookupStands(entries: seq<Entry>, key: string)
    ensures var r := Lookup(entries, key);
            && (r.None? <==> forall j :: 0 <= j < |entries| ==> entries[j].key != key)
            && (r.Some? ==> exists j: nat :: j < |entries| && entries[j].key == key && r.value == entries[j].value
                                            && forall i :: 0 <= i < j ==> entries[i].key != key)
  {
    if entries != [] && entries[0].key != key {
      LookupStands(entries[1..], key);
      assert forall j :: 1 <= j < |entries| ==> entries[j] == entries[1..][j - 1];
      var r := Lookup(entries, key);
      if r.Some? {
        var j: nat :| j < |entries[1..]| && entries[1..][j].key == key && r.value == entries[1..][j].value
                      && forall i :: 0 <= i < j ==> entries[1..][i].key != key;
        assert entries[j + 1] == entries[1..][j];
      }
    }
  }

  lemma StandsOnce(x: Value, key: string, i: nat, j: nat)
    requires Stands(x, key, i) && Stands(x, key, j)
    ensures i == j
  {
  }

  /** A property is looked up where it stands. */
  lemma LookupIs(x: Value, key: string)
    requires x.Thing?
    ensures Lookup(x.entries, key).None? <==> Lacks(x, key)
    ensures forall j: nat :: Stands(x, key, j) ==> Lookup(x.entries, key) == Some(x.entries[j].value)
    ensures !Lacks(x, key) ==> exists j: nat :: j < |x.entries| && Stands(x, key, j)
  {
    LookupStands(x.entries, key);
    if !Lacks(x, key) {
      var j: nat :| j < |x.entries| && x.entries[j].key == key && Lookup(x.entries, key) == Some(x.entries[j].value)
                    && forall i :: 0 <= i < j ==> x.entries[i].key != key;
      assert Stands(x, key, j);
      forall i: nat | Stands(x, key, i) ensures i == j { StandsOnce(x, key, i, j); }
    }
  }

  predicate PropertyConforms(p: Property, x: Value)
    requires x.Thing?
  {
    match Lookup(x.entries, p.key) case None => p.optional case Some(y) => Conforms(p.validator, y)
  }

  lemma PropertiesConform(props: seq<Property>, x: Value)
    requires x.Thing?
    ensures Conforms(Properties(props), x) <==> forall i :: 0 <= i < |props| ==> PropertyConforms(props[i], x)
  {
    forall i | 0 <= i < |props|
      ensures PropertyConforms(props[i], x) <==>
              || (props[i].optional && Lacks(x, props[i].key))
              || exists j: nat | j < |x.entries| :: Stands(x, props[i].key, j) && Conforms(props[i].validator, x.entries[j].value)
    {
      PropertyIs(props[i], x);
    }
  }

  lemma PropertyIs(p: Property, x: Value)
    requires x.Thing?
    ensures PropertyConforms(p, x) <==>
            || (p.optional && Lacks(x, p.key))
            || exists j: nat | j < |x.entries| :: Stands(x, p.key, j) && Conforms(p.validator, x.entries[j].value)
  {
    hide Lookup, Stands, Lacks, Conforms;
    LookupIs(x, p.key);
    if !Lacks(x, p.key) {
      var j: nat :| j < |x.entries| && Stands(x, p.key, j);
    }
    if j: nat :| j < |x.entries| && Stands(x, p.key, j) { LackOrStand(x, p.key, j); }
  }

  lemma LackOrStand(x: Value, key: string, j: nat)
    requires Stands(x, key, j)
    ensures !Lacks(x, key)
  {
  }

  // ------------------------------------------------------------------ accepted, and conforming

  /** Nothing is reported. */
  predicate Mild(o: Outcome)
  {
    o.Errors? ==> o.paths == []
  }

  predicate AllMild(outs: seq<Outcome>)
  {
    forall i :: 0 <= i < |outs| ==> Mild(outs[i])
  }

  lemma {:induction false} MildParts(all: bool, outs: seq<Outcome>)
    requires AllMild(outs)
    ensures Mild(Collect(all, outs)) && Mild(First(outs))
  {
    if outs != [] { MildParts(all, outs[1..]); }
  }

  lemma {:induction false} ChooseAccepts(outs: seq<Outcome>, path: seq<string>, longest: seq<seq<string>>, depth: nat)
    requires depth > |path| ==> longest != []
    ensures Choose(outs, path, longest, depth) == Errors([]) ==> exists i :: 0 <= i < |outs| && outs[i] == Errors([])
    ensures (exists i :: 0 <= i < |outs| && Mild(outs[i])) ==> Mild(Choose(outs, path, longest, depth))
    decreases |outs|
  {
    hide Depth;
    if outs != [] {
      var rest := outs[1..];
      assert forall i :: 1 <= i < |outs| ==> outs[i] == rest[i - 1];
      assert forall i :: 0 <= i < |rest| ==> rest[i] == outs[i + 1];
      if outs[0].Errors? && outs[0].paths != [] {
        var e := outs[0].paths;
        if Depth(e) >= depth { ChooseAccepts(rest, path, e, Depth(e)); } else { ChooseAccepts(rest, path, longest, depth); }
      }
    }
  }

  /** What is accepted conforms, and of what conforms nothing is reported. */
  lemma {:induction false} Conformity(v: Validator, x: Value, all: bool, path: seq<string>)
    ensures Validate(v, x, all, path) == Errors([]) ==> Conforms(v, x)
    ensures Conforms(v, x) ==> Mild(Validate(v, x, all, path))
    decreases v, 2
  {
    hide Indexed, Iterated, Collect, First, Choose;
    match v
    case Leaf(_) =>
    case And(_) => InTurnConforms(v, x, all, path);
    case Or(_) => SomeConforms(v, x, all, path);
    case Properties(props) => if x.Thing? { EveryProperty(v, x, all, path); } else { NoProperties(v, x, all, path); }
    case Schema(_, current, previous, _) =>
      if previous.Some? { InTurnConforms(v, x, all, path); } else { Conformity(current, x, all, path); }
    case _ => EveryPart(v, x, all, path);
  }

  lemma NoProperties(v: Validator, x: Value, all: bool, path: seq<string>)
    requires v.Properties? && !x.Thing?
    ensures Validate(v, x, all, path) == Errors([]) <==> Conforms(v, x)
  {
  }

  /** Parts that are asked in turn. */
  lemma {:induction false} InTurnConforms(v: Validator, x: Value, all: bool, path: seq<string>)
    requires v.And? || (v.Schema? && v.previous.Some?)
    ensures First(Parts(v, x, all, path)) == Errors([]) ==> Conforms(v, x)
    ensures Conforms(v, x) ==> Mild(First(Parts(v, x, all, path)))
    decreases v, 1
  {
    hide Validate, First, Indexed, Iterated;
    var outs := Parts(v, x, all, path);
    FirstAccepts(outs);
    if AllMild(outs) { MildParts(all, outs); }
    match v
    case And(parts) =>
      forall i | 0 <= i < |parts|
        ensures outs[i] == Errors([]) ==> Conforms(parts[i], x)
        ensures Conforms(v, x) ==> Mild(outs[i])
      {
        assert outs[i] == PartAt(v, x, all, path, i);
        Conformity(parts[i], x, all, path);
      }
    case Schema(_, current, previous, _) =>
      Conformity(previous.value, x, all, path);
      Conformity(current, x, all, path);
      assert outs[0] == PartAt(v, x, all, path, 0) && outs[1] == PartAt(v, x, all, path, 1);
  }

  /** One alternative is enough. */
  lemma {:induction false} SomeConforms(v: Validator, x: Value, all: bool, path: seq<string>)
    requires v.Or?
    ensures Choose(Parts(v, x, all, path), path, [], 0) == Errors([]) ==> Conforms(v, x)
    ensures Conforms(v, x) ==> Mild(Choose(Parts(v, x, all, path), path, [], 0))
    decreases v, 1
  {
    hide Validate, Choose, Indexed, Iterated;
    var outs := Parts(v, x, all, path);
    ChooseAccepts(outs, path, [], 0);
    forall i | 0 <= i < |v.parts|
      ensures outs[i] == Errors([]) ==> Conforms(v.parts[i], x)
      ensures Conforms(v.parts[i], x) ==> Mild(outs[i])
    {
      assert outs[i] == PartAt(v, x, all, path, i);
      Conformity(v.parts[i], x, all, path);
    }
  }

  lemma {:induction false} EveryProperty(v: Validator, x: Value, all: bool, path: seq<string>)
    requires v.Properties? && x.Thing?
    ensures Validate(v, x, all, path) == Errors([]) ==> Conforms(v, x)
    ensures Conforms(v, x) ==> Mild(Validate(v, x, all, path))
    decreases v, 1
  {
    hide Collect, Conforms, Lookup;
    var outs := Parts(v, x, all, path);
    CollectAccepts(all, outs);
    if AllMild(outs) { MildParts(all, outs); }
    PropertiesConform(v.props, x);
    forall i | 0 <= i < |v.props|
      ensures outs[i] == Errors([]) ==> PropertyConforms(v.props[i], x)
      ensures PropertyConforms(v.props[i], x) ==> Mild(outs[i])
    {
      assert outs[i] == PartAt(v, x, all, path, i);
      var value := Lookup(x.entries, v.props[i].key);
      if value.Some? { Conformity(v.props[i].validator, value.value, all, path + [v.props[i].key]); }
    }
  }

  /** Elements, positions, entries and members. */
  lemma {:induction false} EveryPart(v: Validator, x: Value, all: bool, path: seq<string>)
    requires v.WithElements? || v.Tuple? || v.RecordOf? || v.SetOf?
    ensures Validate(v, x, all, path) == Errors([]) ==> Conforms(v, x)
    ensures Conforms(v, x) ==> Mild(Validate(v, x, all, path))
    decreases v, 1
  {
    hide Collect, Indexed, Iterated, Digits, Characters;
    var outs := Parts(v, x, all, path);
    CollectAccepts(all, outs);
    if AllMild(outs) { MildParts(all, outs); }
    match v
    case WithElements(element) => if Indexed(x).Items? { EveryItem(v, element, Indexed(x).items, x, all, path); }
    case Tuple(parts) => if Indexed(x).Items? { EveryPosition(v, x, all, path); }
    case RecordOf(_, _) => if x.Thing? { EveryEntry(v, x, all, path); }
    case SetOf(element) => if Iterated(x).Some? { EveryItem(v, element, Iterated(x).value, x, all, path); }
  }

  /** The elements of a list, or the members of a set. */
  lemma {:induction false} EveryItem(v: Validator, element: Validator, s: seq<Value>, x: Value, all: bool, path: seq<string>)
    requires (v.WithElements? && Indexed(x) == Items(s)) || (v.SetOf? && Iterated(x) == Some(s))
    requires element == v.element
    ensures (forall k :: 0 <= k < PartCount(v, x) ==> Parts(v, x, all, path)[k] == Errors([])) ==> Conforms(v, x)
    ensures Conforms(v, x) ==> AllMild(Parts(v, x, all, path))
    decreases v, 0
  {
    hide Validate, Indexed, Iterated, Digits;
    var outs := Parts(v, x, all, path);
    forall i | 0 <= i < |s|
      ensures outs[i] == Errors([]) ==> Conforms(element, s[i])
      ensures Conforms(element, s[i]) ==> Mild(outs[i])
    {
      assert outs[i] == PartAt(v, x, all, path, i);
      Conformity(element, s[i], all, path + [Digits(i)]);
    }
  }

  lemma {:induction false} EveryPosition(v: Validator, x: Value, all: bool, path: seq<string>)
    requires v.Tuple? && Indexed(x).Items?
    ensures (forall k :: 0 <= k < PartCount(v, x) ==> Parts(v, x, all, path)[k] == Errors([])) ==> Conforms(v, x)
    ensures Conforms(v, x) ==> AllMild(Parts(v, x, all, path))
    decreases v, 0
  {
    hide Validate, Indexed, Digits;
    var outs, s := Parts(v, x, all, path), Indexed(x).items;
    assert outs[0] == PartAt(v, x, all, path, 0);
    forall i | 0 <= i < Minimum(|v.parts|, |s|)
      ensures outs[i + 1] == Errors([]) ==> Conforms(v.parts[i], s[i])
      ensures Conforms(v, x) ==> Mild(outs[i + 1])
    {
      assert outs[i + 1] == PartAt(v, x, all, path, i + 1);
      Conformity(v.parts[i], s[i], all, path + [Digits(i)]);
    }
    if forall k :: 0 <= k < |outs| ==> outs[k] == Errors([]) {
      assert outs[0] == Errors([]);
      forall i | 0 <= i < |s| ensures Conforms(v.parts[i], s[i]) { assert outs[i + 1] == Errors([]); }
    }
    if Conforms(v, x) {
      forall k | 0 <= k < |outs| ensures Mild(outs[k]) {
        assert outs[k] == PartAt(v, x, all, path, k);
        if k > 0 { Conformity(v.parts[k - 1], s[k - 1], all, path + [Digits(k - 1)]); }
      }
    }
  }

  lemma {:induction false} EveryEntry(v: Validator, x: Value, all: bool, path: seq<string>)
    requires v.RecordOf? && x.Thing?
    ensures (forall k :: 0 <= k < PartCount(v, x) ==> Parts(v, x, all, path)[k] == Errors([])) ==> Conforms(v, x)
    ensures Conforms(v, x) ==> AllMild(Parts(v, x, all, path))
    decreases v, 0
  {
    hide Validate;
    var outs := Parts(v, x, all, path);
    forall i | 0 <= i < |x.entries|
      ensures outs[2 * i] == Errors([]) ==> Conforms(v.key, Text(x.entries[i].key))
      ensures outs[2 * i + 1] == Errors([]) ==> Conforms(v.value, x.entries[i].value)
      ensures Conforms(v, x) ==> Mild(outs[2 * i]) && Mild(outs[2 * i + 1])
    {
      var e := x.entries[i];
      assert outs[2 * i] == PartAt(v, x, all, path, 2 * i) && outs[2 * i + 1] == PartAt(v, x, all, path, 2 * i + 1);
      Conformity(v.key, Text(e.key), all, path + ["[" + e.key + "]"]);
      Conformity(v.value, e.value, all, path + [e.key]);
    }
    if Conforms(v, x) {
      forall k | 0 <= k < |outs| ensures Mild(outs[k]) {
        var e := x.entries[k / 2];
        assert outs[k] == PartAt(v, x, all, path, k);
        Conformity(v.key, Text(e.key), all, path + ["[" + e.key + "]"]);
        Conformity(v.value, e.value, all, path + [e.key]);
      }
    }
  }

  /** A validator accepts exactly the values that conform to it, whether it stops at the first error or collects all, on every value
      on which it does not throw. */
  lemma AcceptsIff(v: Validator, x: Value, all: bool, path: seq<string>)
    requires Validate(v, x, all, path).Errors?
    ensures Validate(v, x, all, path).paths == [] <==> Conforms(v, x)
  {
    hide Validate, Conforms;
    Conformity(v, x, all, path);
  }

  /** So one that takes nothing apart unasked does on every value, whichever way it is asked. */
  lemma GuardedAcceptsIff(v: Validator, x: Value, all: bool, path: seq<string>)
    requires Guarded(v, x)
    ensures Validate(v, x, all, path) == Errors([]) <==> Conforms(v, x)
    ensures IsValid(v, x) == Some(Conforms(v, x)) && (Assert(v, x, path) == Passed <==> Conforms(v, x))
  {
    hide Validate, Guarded, Conforms;
    GuardedReports(v, x, all, path);
    AcceptsIff(v, x, all, path);
    GuardedAnswer(v, x, path);
    AcceptsIff(v, x, true, path);
  }

  // ------------------------------------------------------------------ what is reported

  /** At this place below the value something is not as the validator asks: `p` leads there by keys and positions. */
  predicate Wrong(v: Validator, x: Value, p: seq<string>)
    decreases v, 1
  {
    match v
    case Leaf(test) => p == [] && !test(x)
    case And(parts) => exists i :: 0 <= i < |parts| && Wrong(parts[i], x, p)
    case Or(parts) =>
      && (forall i :: 0 <= i < |parts| ==> !Conforms(parts[i], x))
      && (p == [] || exists i :: 0 <= i < |parts| && Wrong(parts[i], x, p))
    case Properties(props) =>
      x.Thing? && p != [] && exists i :: 0 <= i < |props| && WrongProperty(v, props[i], x, p)
    case WithElements(element) => Indexed(x).Items? && WrongItem(v, element, Indexed(x).items, p)
    case Tuple(parts) =>
      (match Indexed(x)
       case Items(s) =>
         || (p == [] && |s| != |parts|)
         || (p != [] && exists i :: 0 <= i < Minimum(|parts|, |s|) && p[0] == Digits(i) && Wrong(parts[i], s[i], p[1..]))
       case _ => p == [])
    case RecordOf(key, value) =>
      x.Thing? && p != [] && exists i :: 0 <= i < |x.entries| && WrongEntry(v, key, value, x.entries[i], p)
    case SetOf(element) => Iterated(x).Some? && WrongItem(v, element, Iterated(x).value, p)
    case Schema(_, current, previous, _) => Wrong(current, x, p) || (previous.Some? && Wrong(previous.value, x, p))
  }

  predicate WrongItem(v: Validator, element: Validator, s: seq<Value>, p: seq<string>)
    requires (v.WithElements? || v.SetOf?) && element == v.element
    decreases v, 0
  {
    p != [] && exists i :: 0 <= i < |s| && p[0] == Digits(i) && Wrong(element, s[i], p[1..])
  }

  /** A property that is missing, or wrong somewhere. */
  predicate WrongProperty(v: Validator, prop: Property, x: Value, p: seq<string>)
    requires v.Properties? && prop in v.props && x.Thing? && p != []
    decreases v, 0
  {
    prop.key == p[0] &&
    if Lacks(x, p[0]) then p[1..] == [] && !prop.optional
    else exists j: nat | j < |x.entries| :: Stands(x, p[0], j) && Wrong(prop.validator, x.entries[j].value, p[1..])
  }

  /** An entry of a record whose key is wrong, or its value. */
  predicate WrongEntry(v: Validator, key: Validator, value: Validator, e: Entry, p: seq<string>)
    requires v.RecordOf? && key == v.key && value == v.value && p != []
    decreases v, 0
  {
    || (p[0] == "[" + e.key + "]" && Wrong(key, Text(e.key), p[1..]))
    || (p[0] == e.key && Wrong(value, e.value, p[1..]))
  }

  /** Every path leads from here to a place where something is wrong. */
  ghost predicate AllWrong(v: Validator, x: Value, path: seq<string>, paths: seq<seq<string>>)
  {
    forall e :: e in paths ==> path <= e && Wrong(v, x, e[|path|..])
  }

  lemma {:induction false} CollectedFrom(all: bool, outs: seq<Outcome>, e: seq<string>)
    requires Collect(all, outs).Errors? && e in Collect(all, outs).paths
    ensures exists i :: 0 <= i < |outs| && outs[i].Errors? && e in outs[i].paths
  {
    if outs[0].Errors? && e !in outs[0].paths {
      CollectedFrom(all, outs[1..], e);
      var i :| 0 <= i < |outs[1..]| && outs[1..][i].Errors? && e in outs[1..][i].paths;
      assert outs[i + 1] == outs[1..][i];
    }
  }

  lemma {:induction false} FirstFrom(outs: seq<Outcome>, e: seq<string>)
    requires First(outs).Errors? && e in First(outs).paths
    ensures exists i :: 0 <= i < |outs| && outs[i].Errors? && e in outs[i].paths
  {
    if outs[0] == Errors([]) {
      FirstFrom(outs[1..], e);
      var i :| 0 <= i < |outs[1..]| && outs[1..][i].Errors? && e in outs[1..][i].paths;
      assert outs[i + 1] == outs[1..][i];
    }
  }

  lemma {:induction false} ChosenFrom(outs: seq<Outcome>, path: seq<string>, longest: seq<seq<string>>, depth: nat, e: seq<string>)
    requires Choose(outs, path, longest, depth).Errors? && e in Choose(outs, path, longest, depth).paths
    ensures e == path || e in longest || exists i :: 0 <= i < |outs| && outs[i].Errors? && e in outs[i].paths
    decreases |outs|
  {
    hide Depth;
    if outs != [] {
      var d := outs[0].paths;
      if Depth(d) >= depth { ChosenFrom(outs[1..], path, d, Depth(d), e); } else { ChosenFrom(outs[1..], path, longest, depth, e); }
      if e != path && e !in longest && e !in d {
        var i :| 0 <= i < |outs[1..]| && outs[1..][i].Errors? && e in outs[1..][i].paths;
        assert outs[i + 1] == outs[1..][i];
      }
    }
  }

  lemma Steps(path: seq<string>, key: string, e: seq<string>)
    requires path + [key] <= e
    ensures path <= e && e[|path|..] != [] && e[|path|..][0] == key && e[|path|..][1..] == e[|path + [key]|..]
  {
    assert e[..|path|] == e[..|path + [key]|][..|path|] == path;
  }

  /** Every reported path leads to a place where something is wrong. */
  lemma {:induction false} ReportsWrong(v: Validator, x: Value, all: bool, path: seq<string>)
    ensures Validate(v, x, all, path).Errors? ==> AllWrong(v, x, path, Validate(v, x, all, path).paths)
    decreases v, 2
  {
    hide Collect, First, Choose, PartAt, Wrong, Indexed, Iterated, Conforms;
    var o, outs := Validate(v, x, all, path), Parts(v, x, all, path);
    if o.Errors? {
      forall e | e in o.paths ensures path <= e && Wrong(v, x, e[|path|..])
      {
        match v {
          case Leaf(test) => LeafWrong(v, x, path);
          case Schema(_, current, previous, _) =>
            if previous.None? { ReportsWrong(current, x, all, path); AloneWrong(v, x, e[|path|..]); }
            else {
              FirstFrom(outs, e);
              var i :| 0 <= i < |outs| && outs[i].Errors? && e in outs[i].paths;
              assert outs[i] == PartAt(v, x, all, path, i);
              PartReportsWrong(v, x, all, path, i, e);
            }
          case And(_) =>
            FirstFrom(outs, e);
            var i :| 0 <= i < |outs| && outs[i].Errors? && e in outs[i].paths;
            assert outs[i] == PartAt(v, x, all, path, i);
            PartReportsWrong(v, x, all, path, i, e);
          case Or(_) => NoneWrong(v, x, all, path, e);
          case _ =>
            if Indexed(x) == NoLength && v.Tuple? { NoLengthWrong(v, x, path); }
            else {
              CollectedFrom(all, outs, e);
              var i :| 0 <= i < |outs| && outs[i].Errors? && e in outs[i].paths;
              assert outs[i] == PartAt(v, x, all, path, i);
              PartReportsWrong(v, x, all, path, i, e);
            }
        }
      }
    }
  }

  lemma LeafWrong(v: Validator, x: Value, path: seq<string>)
    requires v.Leaf?
    ensures !v.test(x) ==> path <= path && Wrong(v, x, path[|path|..])
  {
    assert path[|path|..] == [];
  }

  lemma NoLengthWrong(v: Validator, x: Value, path: seq<string>)
    requires v.Tuple? && Indexed(x) == NoLength
    ensures path <= path && Wrong(v, x, path[|path|..])
  {
    hide Indexed;
    assert path[|path|..] == [];
  }

  lemma AloneWrong(v: Validator, x: Value, p: seq<string>)
    requires v.Schema? && Wrong(v.current, x, p)
    ensures Wrong(v, x, p)
  {
  }

  lemma {:induction false} AllRefuse(outs: seq<Outcome>, path: seq<string>, longest: seq<seq<string>>, depth: nat)
    requires var o := Choose(outs, path, longest, depth); o.Errors? && o.paths != []
    ensures forall i :: 0 <= i < |outs| ==> outs[i].Errors? && outs[i].paths != []
    decreases |outs|
  {
    hide Depth;
    if outs != [] {
      var d := outs[0].paths;
      if Depth(d) >= depth { AllRefuse(outs[1..], path, d, Depth(d)); } else { AllRefuse(outs[1..], path, longest, depth); }
      assert forall i :: 1 <= i < |outs| ==> outs[i] == outs[1..][i - 1];
    }
  }

  /** A union reports when no alternative is met. */
  lemma {:induction false} NoneWrong(v: Validator, x: Value, all: bool, path: seq<string>, e: seq<string>)
    requires v.Or? && Validate(v, x, all, path).Errors? && e in Validate(v, x, all, path).paths
    ensures path <= e && Wrong(v, x, e[|path|..])
    decreases v, 1
  {
    hide Choose, Conforms, Depth, Indexed, Iterated;
    var outs := Parts(v, x, all, path);
    AllRefuse(outs, path, [], 0);
    ChosenFrom(outs, path, [], 0, e);
    forall i | 0 <= i < |v.parts| ensures !Conforms(v.parts[i], x) {
      assert outs[i] == PartAt(v, x, all, path, i);
      Conformity(v.parts[i], x, all, path);
    }
    assert path[|path|..] == [];
    if e != path {
      var i :| 0 <= i < |outs| && outs[i].Errors? && e in outs[i].paths;
      assert outs[i] == PartAt(v, x, all, path, i);
      ReportsWrong(v.parts[i], x, all, path);
    }
  }

  /** What a part reports. */
  lemma {:induction false} PartReportsWrong(v: Validator, x: Value, all: bool, path: seq<string>, i: nat, e: seq<string>)
    requires !v.Or? && i < PartCount(v, x) && PartAt(v, x, all, path, i).Errors? && e in PartAt(v, x, all, path, i).paths
    ensures path <= e && Wrong(v, x, e[|path|..])
    decreases v, 1
  {
    match v
    case And(parts) => ReportsWrong(parts[i], x, all, path);
    case Properties(_) => PropertyWrong(v, x, all, path, i, e);
    case WithElements(element) => ItemWrong(v, element, Indexed(x).items, x, all, path, i, e);
    case Tuple(_) => PositionWrong(v, x, all, path, i, e);
    case RecordOf(_, _) => EntryWrong(v, x, all, path, i, e);
    case SetOf(element) => ItemWrong(v, element, Iterated(x).value, x, all, path, i, e);
    case Schema(_, current, previous, _) =>
      if i == 0 { ReportsWrong(previous.value, x, all, path); } else { ReportsWrong(current, x, all, path); }
  }

  lemma {:induction false} PropertyWrong(v: Validator, x: Value, all: bool, path: seq<string>, i: nat, e: seq<string>)
    requires v.Properties? && i < PartCount(v, x) && PartAt(v, x, all, path, i).Errors? && e in PartAt(v, x, all, path, i).paths
    ensures path <= e && Wrong(v, x, e[|path|..])
    decreases v, 0
  {
    hide Validate, Lookup, Stands, Lacks;
    var p, below := v.props[i], path + [v.props[i].key];
    LookupIs(x, p.key);
    if Lacks(x, p.key) {
      assert e == below;
      Steps(path, p.key, e);
      assert e[|below|..] == [];
    } else {
      var j: nat :| j < |x.entries| && Stands(x, p.key, j);
      ReportsWrong(p.validator, x.entries[j].value, all, below);
      Steps(path, p.key, e);
    }
  }

  lemma {:induction false} ItemWrong(v: Validator, element: Validator, s: seq<Value>, x: Value, all: bool, path: seq<string>, i: nat,
                                     e: seq<string>)
    requires (v.WithElements? && Indexed(x) == Items(s)) || (v.SetOf? && Iterated(x) == Some(s))
    requires element == v.element && i < PartCount(v, x) && PartAt(v, x, all, path, i).Errors? && e in PartAt(v, x, all, path, i).paths
    ensures path <= e && Wrong(v, x, e[|path|..])
    decreases v, 0
  {
    hide Validate, Indexed, Iterated, Digits;
    ReportsWrong(element, s[i], all, path + [Digits(i)]);
    Steps(path, Digits(i), e);
  }

  lemma {:induction false} PositionWrong(v: Validator, x: Value, all: bool, path: seq<string>, i: nat, e: seq<string>)
    requires v.Tuple? && i < PartCount(v, x) && PartAt(v, x, all, path, i).Errors? && e in PartAt(v, x, all, path, i).paths
    ensures path <= e && Wrong(v, x, e[|path|..])
    decreases v, 0
  {
    hide Validate, Indexed, Digits;
    if i == 0 {
      assert e == path && path[|path|..] == [];
    } else {
      ReportsWrong(v.parts[i - 1], Indexed(x).items[i - 1], all, path + [Digits(i - 1)]);
      Steps(path, Digits(i - 1), e);
    }
  }

  lemma {:induction false} EntryWrong(v: Validator, x: Value, all: bool, path: seq<string>, i: nat, e: seq<string>)
    requires v.RecordOf? && i < PartCount(v, x) && PartAt(v, x, all, path, i).Errors? && e in PartAt(v, x, all, path, i).paths
    ensures path <= e && Wrong(v, x, e[|path|..])
    decreases v, 0
  {
    hide Validate;
    var entry := x.entries[i / 2];
    if i % 2 == 0 {
      ReportsWrong(v.key, Text(entry.key), all, path + ["[" + entry.key + "]"]);
      Steps(path, "[" + entry.key + "]", e);
    } else {
      ReportsWrong(v.value, entry.value, all, path + [entry.key]);
      Steps(path, entry.key, e);
    }
  }

  /** A validator that asks all its parts: there is no union in it, and nothing that is asked in turn. */
  predicate AsksAll(v: Validator)
    decreases v
  {
    match v
    case Leaf(_) => true
    case And(_) => false
    case Or(_) => false
    case Properties(props) => forall i :: 0 <= i < |props| ==> AsksAll(props[i].validator)
    case WithElements(element) => AsksAll(element)
    case Tuple(parts) => forall i :: 0 <= i < |parts| ==> AsksAll(parts[i])
    case RecordOf(key, value) => AsksAll(key) && AsksAll(value)
    case SetOf(element) => AsksAll(element)
    case Schema(_, current, previous, _) => previous.None? && AsksAll(current)
  }

  lemma {:induction false} CollectedAll(outs: seq<Outcome>, i: nat)
    requires i < |outs| && Collect(true, outs).Errors?
    ensures outs[i].Errors? && forall e :: e in outs[i].paths ==> e in Collect(true, outs).paths
  {
    if i > 0 { CollectedAll(outs[1..], i - 1); }
  }

  /** Of a part, everything is reported that is reported of the whole. */
  lemma PartCollected(v: Validator, x: Value, path: seq<string>, i: nat, e: seq<string>)
    requires AsksAll(v) && Validate(v, x, true, path).Errors? && i < PartCount(v, x)
    ensures var o := PartAt(v, x, true, path, i); o.Errors? && (e in o.paths ==> e in Validate(v, x, true, path).paths)
  {
    hide Collect, PartAt, Indexed, Iterated;
    var outs := Parts(v, x, true, path);
    assert outs[i] == PartAt(v, x, true, path, i);
    if Validate(v, x, true, path) == Collect(true, outs) { CollectedAll(outs, i); }
  }

  lemma Onwards(path: seq<string>, p: seq<string>)
    requires p != []
    ensures (path + [p[0]]) + p[1..] == path + p
  {
    assert [p[0]] + p[1..] == p;
  }

  /** Collecting reports every place that is wrong, if every part is asked. */
  lemma {:induction false} AllReported(v: Validator, x: Value, path: seq<string>, p: seq<string>)
    requires AsksAll(v) && Validate(v, x, true, path).Errors? && Wrong(v, x, p)
    ensures path + p in Validate(v, x, true, path).paths
    decreases v, 1
  {
    hide Validate, Collect, Indexed, Iterated, Digits, Stands, Lacks, Lookup, PartAt;
    match v
    case Leaf(_) => WrongLeaf(v, x, path, p);
    case Properties(props) => PropertyReported(v, x, path, p);
    case WithElements(element) => ItemReported(v, element, Indexed(x).items, x, path, p);
    case Tuple(_) => PositionReported(v, x, path, p);
    case RecordOf(_, _) => EntryReported(v, x, path, p);
    case SetOf(element) => ItemReported(v, element, Iterated(x).value, x, path, p);
    case Schema(_, current, _, _) => AloneReported(v, x, path); AllReported(current, x, path, p);
  }

  lemma WrongLeaf(v: Validator, x: Value, path: seq<string>, p: seq<string>)
    requires v.Leaf? && Wrong(v, x, p)
    ensures Validate(v, x, true, path).Errors? && path + p in Validate(v, x, true, path).paths
  {
    assert path + [] == path;
  }

  lemma AloneReported(v: Validator, x: Value, path: seq<string>)
    requires v.Schema? && v.previous.None?
    ensures Validate(v, x, true, path) == Validate(v.current, x, true, path)
  {
  }

  lemma {:induction false} PropertyReported(v: Validator, x: Value, path: seq<string>, p: seq<string>)
    requires v.Properties? && AsksAll(v) && Validate(v, x, true, path).Errors? && Wrong(v, x, p)
    ensures path + p in Validate(v, x, true, path).paths
    decreases v, 0
  {
    hide Validate, Collect, Lookup, Stands, Lacks;
    var i :| 0 <= i < |v.props| && WrongProperty(v, v.props[i], x, p);
    var below := path + [p[0]];
    LookupIs(x, p[0]);
    Onwards(path, p);
    PartCollected(v, x, path, i, path + p);
    if Lacks(x, p[0]) {
      assert below + [] == below;
    } else {
      var j: nat :| j < |x.entries| && Stands(x, p[0], j) && Wrong(v.props[i].validator, x.entries[j].value, p[1..]);
      AllReported(v.props[i].validator, x.entries[j].value, below, p[1..]);
    }
  }

  lemma {:induction false} ItemReported(v: Validator, element: Validator, s: seq<Value>, x: Value, path: seq<string>, p: seq<string>)
    requires (v.WithElements? && Indexed(x) == Items(s)) || (v.SetOf? && Iterated(x) == Some(s))
    requires element == v.element && AsksAll(v) && Validate(v, x, true, path).Errors? && Wrong(v, x, p)
    ensures path + p in Validate(v, x, true, path).paths
    decreases v, 0
  {
    hide Validate, Collect, Indexed, Iterated, Digits;
    var i :| 0 <= i < |s| && p[0] == Digits(i) && Wrong(element, s[i], p[1..]);
    Onwards(path, p);
    PartCollected(v, x, path, i, path + p);
    AllReported(element, s[i], path + [Digits(i)], p[1..]);
  }

  lemma {:induction false} PositionReported(v: Validator, x: Value, path: seq<string>, p: seq<string>)
    requires v.Tuple? && AsksAll(v) && Validate(v, x, true, path).Errors? && Wrong(v, x, p)
    ensures path + p in Validate(v, x, true, path).paths
    decreases v, 0
  {
    hide Collect, Indexed, Digits, PartAt, Wrong;
    assert path + [] == path;
    WrongPosition(v, x, p);
    if Indexed(x).Items? {
      var s := Indexed(x).items;
      if p == [] {
        PartCollected(v, x, path, 0, path);
        LengthPart(v, x, path);
      } else {
        var i :| 0 <= i < Minimum(|v.parts|, |s|) && p[0] == Digits(i) && Wrong(v.parts[i], s[i], p[1..]);
        Onwards(path, p);
        PartCollected(v, x, path, i + 1, path + p);
        PositionPart(v, x, path, i);
        AllReported(v.parts[i], s[i], path + [Digits(i)], p[1..]);
      }
    }
  }

  lemma WrongPosition(v: Validator, x: Value, p: seq<string>)
    requires v.Tuple? && Wrong(v, x, p)
    ensures !Indexed(x).Items? ==> p == []
    ensures Indexed(x).Items? && p == [] ==> |Indexed(x).items| != |v.parts|
    ensures Indexed(x).Items? && p != [] ==>
              exists i :: 0 <= i < Minimum(|v.parts|, |Indexed(x).items|) && p[0] == Digits(i) && Wrong(v.parts[i], Indexed(x).items[i], p[1..])
  {
    hide Indexed, Digits;
  }

  lemma LengthPart(v: Validator, x: Value, path: seq<string>)
    requires v.Tuple? && Indexed(x).Items?
    ensures PartAt(v, x, true, path, 0) == Errors(if |Indexed(x).items| == |v.parts| then [] else [path])
  {
    hide Indexed;
  }

  lemma PositionPart(v: Validator, x: Value, path: seq<string>, i: nat)
    requires v.Tuple? && Indexed(x).Items? && i < Minimum(|v.parts|, |Indexed(x).items|)
    ensures PartAt(v, x, true, path, i + 1) == Validate(v.parts[i], Indexed(x).items[i], true, path + [Digits(i)])
  {
    hide Indexed, Validate, Digits;
  }

  lemma {:induction false} EntryReported(v: Validator, x: Value, path: seq<string>, p: seq<string>)
    requires v.RecordOf? && AsksAll(v) && Validate(v, x, true, path).Errors? && Wrong(v, x, p)
    ensures path + p in Validate(v, x, true, path).paths
    decreases v, 0
  {
    hide Validate, Collect;
    var i :| 0 <= i < |x.entries| && WrongEntry(v, v.key, v.value, x.entries[i], p);
    var e := x.entries[i];
    Onwards(path, p);
    PartCollected(v, x, path, 2 * i, path + p);
    PartCollected(v, x, path, 2 * i + 1, path + p);
    assert (2 * i) / 2 == i && (2 * i + 1) / 2 == i;
    if p[0] == "[" + e.key + "]" && Wrong(v.key, Text(e.key), p[1..]) {
      AllReported(v.key, Text(e.key), path + [p[0]], p[1..]);
    } else {
      AllReported(v.value, e.value, path + [p[0]], p[1..]);
    }
  }

  /** Where every part is asked, collecting reports exactly the places that are wrong. */
  lemma ReportsIff(v: Validator, x: Value, path: seq<string>, p: seq<string>)
    requires AsksAll(v) && Validate(v, x, true, path).Errors?
    ensures path + p in Validate(v, x, true, path).paths <==> Wrong(v, x, p)
  {
    hide *;
    ReportsWrong(v, x, true, path);
    assert (path + p)[|path|..] == p;
    if Wrong(v, x, p) { AllReported(v, x, path, p); }
    if path + p in Validate(v, x, true, path).paths { PlaceWrong(v, x, path, path + p, Validate(v, x, true, path).paths); }
  }

  lemma PlaceWrong(v: Validator, x: Value, path: seq<string>, e: seq<string>, paths: seq<seq<string>>)
    requires AllWrong(v, x, path, paths) && e in paths
    ensures path <= e && Wrong(v, x, e[|path|..])
  {
  }

  // ------------------------------------------------------------------ partial schemas

  /** The properties that are there conform, and any may be missing; in a deep way that goes for the properties of properties too.
      What else a chain of schemas asks stays as it is. */
  predicate Partly(v: Validator, x: Value, deep: bool)
    decreases v, 1
  {
    match v
    case Properties(props) =>
      && (x.Thing? || props == [])
      && forall i :: 0 <= i < |props| ==>
           || Lacks(x, props[i].key)
           || exists j: nat | j < |x.entries| ::
                && Stands(x, props[i].key, j)
                && if deep then Partly(props[i].validator, x.entries[j].value, true) else Conforms(props[i].validator, x.entries[j].value)
    case Schema(isObject, _, _, _) => if isObject then LinksPartly(v, x, deep) else Conforms(v, x)
    case _ => Conforms(v, x)
  }

  predicate LinksPartly(v: Validator, x: Value, deep: bool)
    decreases v, 0
  {
    match v
    case Schema(_, current, previous, _) => Partly(current, x, deep) && (previous.Some? ==> LinksPartly(previous.value, x, deep))
    case _ => Conforms(v, x)
  }

  /** The partial of a validator asks what is said of it. */
  lemma {:induction false} PartialConforms(v: Validator, x: Value)
    ensures Conforms(Partial(v), x) <==> Partly(v, x, false)
    decreases v, 1
  {
    match v
    case Properties(props) =>
      OptionalAt(props);
    case Schema(isObject, _, _, _) => if isObject { CloneConforms(v, x); }
    case _ =>
  }

  lemma {:induction false} CloneConforms(v: Validator, x: Value)
    ensures Conforms(ClonePartial(v), x) <==> LinksPartly(v, x, false)
    decreases v, 0
  {
    match v
    case Schema(_, current, previous, _) =>
      PartialConforms(current, x);
      if previous.Some? { CloneConforms(previous.value, x); }
    case _ =>
  }

  lemma {:induction false} DeepConforms(v: Validator, x: Value)
    ensures Conforms(PartialDeep(v), x) <==> Partly(v, x, true)
    decreases v, 1
  {
    match v
    case Properties(props) =>
      PartialDeepAt(props);
      hide PartialDeep;
      PropertiesDeep(v, x);
      DeepIs(props);
    case Schema(isObject, _, _, _) => if isObject { CloneDeepConforms(v, x); }
    case _ =>
  }

  lemma DeepIs(props: seq<Property>)
    ensures PartialDeep(Properties(props)) == Properties(AllPartialDeep(props))
  {
  }

  lemma {:induction false} PropertiesDeep(v: Validator, x: Value)
    requires v.Properties?
    ensures Conforms(Properties(AllPartialDeep(v.props)), x) <==> Partly(v, x, true)
    decreases v, 0
  {
    hide PartialDeep, Stands, Lacks;
    var deep := AllPartialDeep(v.props);
    PartialDeepAt(v.props);
    forall i, y: Value | 0 <= i < |v.props| ensures Conforms(deep[i].validator, y) <==> Partly(v.props[i].validator, y, true) {
      DeepConforms(v.props[i].validator, y);
    }
  }

  lemma {:induction false} CloneDeepConforms(v: Validator, x: Value)
    ensures Conforms(ClonePartialDeep(v), x) <==> LinksPartly(v, x, true)
    decreases v, 0
  {
    match v
    case Schema(_, current, previous, _) =>
      DeepConforms(current, x);
      if previous.Some? { CloneDeepConforms(previous.value, x); }
    case _ =>
  }

  /** `partial` accepts exactly the values whose properties, as far as they are there, conform; so does `partialDeep`, at any depth. */
  lemma PartialAcceptsIff(v: Validator, x: Value, all: bool, path: seq<string>)
    ensures Validate(Partial(v), x, all, path).Errors? ==> (Validate(Partial(v), x, all, path).paths == [] <==> Partly(v, x, false))
    ensures Validate(PartialDeep(v), x, all, path).Errors? ==> (Validate(PartialDeep(v), x, all, path).paths == [] <==> Partly(v, x, true))
  {
    hide *;
    PartialConforms(v, x);
    DeepConforms(v, x);
    if Validate(Partial(v), x, all, path).Errors? { AcceptsIff(Partial(v), x, all, path); }
    if Validate(PartialDeep(v), x, all, path).Errors? { AcceptsIff(PartialDeep(v), x, all, path); }
  }

  /** The value without some of its entries. */
  ghost predicate Fewer(x: Value, y: Value)
  {
    x.Thing? && y.Thing? && forall key :: Lacks(y, key) || Lookup(y.entries, key) == Lookup(x.entries, key)
  }

  /** Whatever properties are taken from an object that conforms, its partial accepts the rest. */
  lemma RestAccepted(props: seq<Property>, x: Value, y: Value, all: bool, path: seq<string>)
    requires Conforms(Properties(props), x) && Fewer(x, y) && Validate(Partial(Properties(props)), y, all, path).Errors?
    ensures Validate(Partial(Properties(props)), y, all, path).paths == []
  {
    hide Validate, Partial, Conforms, Partly, Lookup;
    PropertiesConform(props, x);
    PropertiesPartly(props, y);
    forall i | 0 <= i < |props| ensures Lacks(y, props[i].key) || PropertyConforms(props[i].(optional := true), y) {
      assert PropertyConforms(props[i], x);
      assert Lacks(y, props[i].key) || Lookup(y.entries, props[i].key) == Lookup(x.entries, props[i].key);
      LookupIs(y, props[i].key);
    }
    PartialAcceptsIff(Properties(props), y, all, path);
  }

  lemma PropertiesPartly(props: seq<Property>, x: Value)
    requires x.Thing?
    ensures Partly(Properties(props), x, false) <==>
              forall i :: 0 <= i < |props| ==> Lacks(x, props[i].key) || PropertyConforms(props[i].(optional := true), x)
  {
    hide Lookup;
    forall i | 0 <= i < |props|
      ensures (Lacks(x, props[i].key) || PropertyConforms(props[i].(optional := true), x)) <==>
              || Lacks(x, props[i].key)
              || exists j: nat | j < |x.entries| :: Stands(x, props[i].key, j) && Conforms(props[i].validator, x.entries[j].value)
    {
      PropertyIs(props[i].(optional := true), x);
    }
  }
}
