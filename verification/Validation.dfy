/**
 Validators: leaves that test a value, and composed ones that test its parts. A validator either stops at the first
 error or collects all of them.
 */
module Validation {
  import opened Strings
  import opened Wrappers

  // ------------------------------------------------------------------ values

  /** A value as validators can take it apart; a thing has properties, may be indexed, and may be iterated. */
  datatype Value =
    | Nothing
    | Atom(id: int)
    | Text(text: string)
    | Thing(entries: seq<Entry>, indexed: Option<seq<Value>>, iterated: Option<seq<Value>>)

  datatype Entry = Entry(key: string, value: Value)

  function Lookup(entries: seq<Entry>, key: string): Option<Value>
  {
    if entries == [] then None else if entries[0].key == key then Some(entries[0].value) else Lookup(entries[1..], key)
  }

  function Characters(s: string): seq<Value>
  {
    seq(|s|, i requires 0 <= i < |s| => Text([s[i]]))
  }

  /** `length` and indices: reading them off nothing throws, and most values have none. */
  datatype Listed = Throws | NoLength | Items(items: seq<Value>)

  function Indexed(x: Value): Listed
  {
    match x
    case Nothing => Throws
    case Atom(_) => NoLength
    case Text(s) => Items(Characters(s))
    case Thing(_, indexed, _) => match indexed case None => NoLength case Some(s) => Items(s)
  }

  /** Iterating what is not iterable throws. */
  function Iterated(x: Value): Option<seq<Value>>
  {
    match x
    case Text(s) => Some(Characters(s))
    case Thing(_, _, iterated) => iterated
    case _ => None
  }

  // ------------------------------------------------------------------ validators

  datatype Validator =
    | Leaf(test: Value -> bool)
    | And(parts: seq<Validator>)
    | Or(parts: seq<Validator>)
    | Properties(props: seq<Property>)
    | WithElements(element: Validator)
    | Tuple(parts: seq<Validator>)
    | RecordOf(key: Validator, value: Validator)
    | SetOf(element: Validator)
    | Schema(isObject: bool, current: Validator, previous: Option<Validator>, optional: bool)

  datatype Property = Property(key: string, validator: Validator, optional: bool)

  /** Errors by the path where they are; or the validator threw, on a value it cannot take apart. */
  datatype Outcome = Errors(paths: seq<seq<string>>) | Threw

  /** The loops over parts: they stop at the first error unless all are collected. */
  function Collect(all: bool, outs: seq<Outcome>): Outcome
  {
    if outs == [] then Errors([])
    else
      match outs[0]
      case Threw => Threw
      case Errors(e) =>
        if !all && e != [] then Errors(e)
        else match Collect(all, outs[1..]) case Threw => Threw case Errors(r) => Errors(e + r)
  }

  /** The first that has errors. */
  function First(outs: seq<Outcome>): Outcome
  {
    if outs == [] then Errors([]) else if outs[0] == Errors([]) then First(outs[1..]) else outs[0]
  }

  /** The greatest length of a path. */
  function Depth(paths: seq<seq<string>>): nat
  {
    if paths == [] then 0
    else
      var rest := Depth(paths[..|paths| - 1]);
      if |paths[|paths| - 1]| >= rest then |paths[|paths| - 1]| else rest
  }

  /** The loop over alternatives: the first that accepts wins; else the last of the deepest errors, if they are
      deeper than the alternatives themselves. */
  function Choose(outs: seq<Outcome>, path: seq<string>, longest: seq<seq<string>>, depth: nat): Outcome
  {
    if outs == [] then Errors(if depth > |path| then longest else [path])
    else
      match outs[0]
      case Threw => Threw
      case Errors(e) =>
        if e == [] then Errors([])
        else if Depth(e) >= depth then Choose(outs[1..], path, e, Depth(e))
        else Choose(outs[1..], path, longest, depth)
  }

  function Minimum(a: nat, b: nat): nat
  {
    if a < b then a else b
  }

  /** How many parts the loop of a validator looks at. */
  function PartCount(v: Validator, x: Value): nat
  {
    match v
    case Leaf(_) => 0
    case And(parts) => |parts|
    case Or(parts) => |parts|
    case Properties(props) => if x.Thing? then |props| else 0
    case WithElements(_) => (match Indexed(x) case Items(s) => |s| case _ => 0)
    case Tuple(parts) => (match Indexed(x) case Items(s) => 1 + Minimum(|parts|, |s|) case _ => 0)
    case RecordOf(_, _) => if x.Thing? then 2 * |x.entries| else 0
    case SetOf(_) => (match Iterated(x) case Some(s) => |s| case None => 0)
    case Schema(_, _, previous, _) => if previous.Some? then 2 else 0
  }

  /** What the loop finds at its `i`-th part. */
  function PartAt(v: Validator, x: Value, all: bool, path: seq<string>, i: nat): Outcome
    requires i < PartCount(v, x)
    decreases v, 0
  {
    match v
    case And(parts) => Validate(parts[i], x, all, path)
    case Or(parts) => Validate(parts[i], x, all, path)
    case Properties(props) =>
      var below := path + [props[i].key];
      (match Lookup(x.entries, props[i].key)
       case Some(value) => Validate(props[i].validator, value, all, below)
       case None => Errors(if props[i].optional then [] else [below]))
    case WithElements(element) => Validate(element, Indexed(x).items[i], all, path + [Digits(i)])
    case Tuple(parts) =>
      if i == 0 then Errors(if |Indexed(x).items| == |parts| then [] else [path])
      else Validate(parts[i - 1], Indexed(x).items[i - 1], all, path + [Digits(i - 1)])
    case RecordOf(key, value) =>
      var e := x.entries[i / 2];
      if i % 2 == 0 then Validate(key, Text(e.key), all, path + ["[" + e.key + "]"])
      else Validate(value, e.value, all, path + [e.key])
    case SetOf(element) => Validate(element, Iterated(x).value[i], all, path + [Digits(i)])
    case Schema(_, current, previous, _) =>
      if i == 0 then Validate(previous.value, x, all, path) else Validate(current, x, all, path)
  }

  function Parts(v: Validator, x: Value, all: bool, path: seq<string>): (outs: seq<Outcome>)
    ensures |outs| == PartCount(v, x)
    decreases v, 1
  {
    seq(PartCount(v, x), i requires 0 <= i < PartCount(v, x) => PartAt(v, x, all, path, i))
  }

  function Validate(v: Validator, x: Value, all: bool, path: seq<string>): Outcome
    decreases v, 2
  {
    match v
    case Leaf(test) => Errors(if test(x) then [] else [path])
    case And(_) => First(Parts(v, x, all, path))
    case Or(_) => Choose(Parts(v, x, all, path), path, [], 0)
    case Properties(props) => if !x.Thing? && props != [] then Threw else Collect(all, Parts(v, x, all, path))
    case WithElements(_) => if Indexed(x) == Throws then Threw else Collect(all, Parts(v, x, all, path))
    case Tuple(_) =>
      if Indexed(x) == Throws then Threw else if Indexed(x) == NoLength then Errors([path]) else Collect(all, Parts(v, x, all, path))
    case RecordOf(_, _) => if !x.Thing? then Threw else Collect(all, Parts(v, x, all, path))
    case SetOf(_) => if Iterated(x).None? then Threw else Collect(all, Parts(v, x, all, path))
    case Schema(_, current, previous, _) =>
      if previous.None? then Validate(current, x, all, path) else First(Parts(v, x, all, path))
  }

  // ------------------------------------------------------------------ validation as it runs

  function Behind(errors: seq<seq<string>>, o: Outcome): Outcome
  {
    match o case Threw => Threw case Errors(e) => Errors(errors + e)
  }

  lemma CollectStep(all: bool, outs: seq<Outcome>, i: nat, errors: seq<seq<string>>)
    requires i < |outs|
    ensures Behind(errors, Collect(all, outs[i..])) ==
              (match outs[i] case Threw => Threw
               case Errors(e) => if !all && e != [] then Errors(errors + e) else Behind(errors + e, Collect(all, outs[i + 1..])))
  {
    assert outs[i..][0] == outs[i] && outs[i..][1..] == outs[i + 1..];
    match (outs[i], Collect(all, outs[i + 1..]))
    case (Errors(e), Errors(r)) => assert errors + (e + r) == (errors + e) + r;
    case _ =>
  }

  /** The loops that push errors: over properties, elements, positions, keys with their values, and members. */
  method CollectParts(v: Validator, x: Value, all: bool, path: seq<string>) returns (o: Outcome)
    ensures o == Collect(all, Parts(v, x, all, path))
    decreases v, 1
  {
    hide Validate, PartAt, Collect, PartCount;
    var errors: seq<seq<string>> := [];
    ghost var outs := Parts(v, x, all, path);
    NothingYet(Collect(all, outs), all, outs);
    var n := PartCount(v, x);
    for i := 0 to n
      invariant !all ==> errors == []
      invariant Collect(all, outs) == Behind(errors, Collect(all, outs[i..]))
    {
      CollectStep(all, outs, i, errors);
      var part := ValidatePart(v, x, all, path, i);
      if part.Threw? { return Threw; }
      errors := errors + part.paths;
      if !all && errors != [] { return Errors(errors); }
    }
    NothingLeft(all, outs, errors);
    return Errors(errors);
  }

  lemma NothingYet(o: Outcome, all: bool, outs: seq<Outcome>)
    ensures Behind([], o) == o && outs[0..] == outs
  {
    if o.Errors? { assert [] + o.paths == o.paths; }
  }

  lemma NothingLeft(all: bool, outs: seq<Outcome>, errors: seq<seq<string>>)
    ensures Behind(errors, Collect(all, outs[|outs|..])) == Errors(errors)
  {
    assert errors + [] == errors;
  }

  /** The parts one by one until one has errors. */
  method FirstPart(v: Validator, x: Value, all: bool, path: seq<string>) returns (o: Outcome)
    ensures o == First(Parts(v, x, all, path))
    decreases v, 1
  {
    hide Validate, PartAt, PartCount;
    ghost var outs := Parts(v, x, all, path);
    assert outs[0..] == outs;
    var n := PartCount(v, x);
    for i := 0 to n
      invariant First(outs) == First(outs[i..])
    {
      assert outs[i..][0] == outs[i] && outs[i..][1..] == outs[i + 1..];
      var part := ValidatePart(v, x, all, path, i);
      if part != Errors([]) { return part; }
    }
    return Errors([]);
  }

  /** The alternatives one by one; the deepest errors so far are kept. */
  method ChoosePart(v: Validator, x: Value, all: bool, path: seq<string>) returns (o: Outcome)
    ensures o == Choose(Parts(v, x, all, path), path, [], 0)
    decreases v, 1
  {
    hide Validate, PartAt, PartCount, Depth;
    ghost var outs := Parts(v, x, all, path);
    assert outs[0..] == outs;
    var longestErrors: seq<seq<string>> := [];
    var longestPath := 0;
    var n := PartCount(v, x);
    for i := 0 to n
      invariant Choose(outs, path, [], 0) == Choose(outs[i..], path, longestErrors, longestPath)
    {
      assert outs[i..][0] == outs[i] && outs[i..][1..] == outs[i + 1..];
      var part := ValidatePart(v, x, all, path, i);
      if part.Threw? { return Threw; }
      if part.paths == [] { return Errors([]); }
      var pathLength := DeepestPath(part.paths);
      if pathLength >= longestPath {
        longestErrors := part.paths;
        longestPath := pathLength;
      }
    }
    return Errors(if longestPath > |path| then longestErrors else [path]);
  }

  method DeepestPath(paths: seq<seq<string>>) returns (max: nat)
    ensures max == Depth(paths)
  {
    max := 0;
    for i := 0 to |paths|
      invariant max == Depth(paths[..i])
    {
      assert paths[..i + 1][..i] == paths[..i];
      if |paths[i]| >= max { max := |paths[i]|; }
    }
    assert paths[..|paths|] == paths;
  }

  method ValidatePart(v: Validator, x: Value, all: bool, path: seq<string>, i: nat) returns (o: Outcome)
    requires i < PartCount(v, x)
    ensures o == PartAt(v, x, all, path, i)
    decreases v, 0
  {
    hide Validate, Lookup, Characters, Digits;
    match v
    case And(parts) => o := ValidateValue(parts[i], x, all, path);
    case Or(parts) => o := ValidateValue(parts[i], x, all, path);
    case Properties(props) =>
      var below := path + [props[i].key];
      var value := Lookup(x.entries, props[i].key);
      if value.Some? { o := ValidateValue(props[i].validator, value.value, all, below); }
      else { o := Errors(if props[i].optional then [] else [below]); }
    case WithElements(element) => o := ValidateValue(element, Indexed(x).items[i], all, path + [Digits(i)]);
    case Tuple(parts) =>
      if i == 0 { o := Errors(if |Indexed(x).items| == |parts| then [] else [path]); }
      else { o := ValidateValue(parts[i - 1], Indexed(x).items[i - 1], all, path + [Digits(i - 1)]); }
    case RecordOf(key, value) =>
      var e := x.entries[i / 2];
      if i % 2 == 0 { o := ValidateValue(key, Text(e.key), all, path + ["[" + e.key + "]"]); }
      else { o := ValidateValue(value, e.value, all, path + [e.key]); }
    case SetOf(element) => o := ValidateValue(element, Iterated(x).value[i], all, path + [Digits(i)]);
    case Schema(_, current, previous, _) =>
      if i == 0 { o := ValidateValue(previous.value, x, all, path); } else { o := ValidateValue(current, x, all, path); }
  }

  method ValidateValue(v: Validator, x: Value, all: bool, path: seq<string>) returns (o: Outcome)
    ensures o == Validate(v, x, all, path)
    decreases v, 2
  {
    hide Collect, First, Choose, Parts, PartAt;
    match v
    case Leaf(test) => o := Errors(if test(x) then [] else [path]);
    case And(_) => o := FirstPart(v, x, all, path);
    case Or(_) => o := ChoosePart(v, x, all, path);
    case Properties(props) => if !x.Thing? && props != [] { o := Threw; } else { o := CollectParts(v, x, all, path); }
    case WithElements(_) => if Indexed(x) == Throws { o := Threw; } else { o := CollectParts(v, x, all, path); }
    case Tuple(_) =>
      if Indexed(x) == Throws { o := Threw; }
      else if Indexed(x) == NoLength { o := Errors([path]); }
      else { o := CollectParts(v, x, all, path); }
    case RecordOf(_, _) => if !x.Thing? { o := Threw; } else { o := CollectParts(v, x, all, path); }
    case SetOf(_) => if Iterated(x).None? { o := Threw; } else { o := CollectParts(v, x, all, path); }
    case Schema(_, current, previous, _) =>
      if previous.None? { o := ValidateValue(current, x, all, path); } else { o := FirstPart(v, x, all, path); }
  }

  // ------------------------------------------------------------------ paths

  /** Every path with `p` in front. */
  function Under(p: seq<string>, paths: seq<seq<string>>): (r: seq<seq<string>>)
    ensures |r| == |paths|
  {
    seq(|paths|, i requires 0 <= i < |paths| => p + paths[i])
  }

  function Moved(p: seq<string>, o: Outcome): Outcome
  {
    match o case Threw => Threw case Errors(e) => Errors(Under(p, e))
  }

  function AllMoved(p: seq<string>, outs: seq<Outcome>): (r: seq<Outcome>)
    ensures |r| == |outs|
  {
    seq(|outs|, i requires 0 <= i < |outs| => Moved(p, outs[i]))
  }

  lemma {:induction false} CollectMoved(p: seq<string>, all: bool, outs: seq<Outcome>)
    ensures Collect(all, AllMoved(p, outs)) == Moved(p, Collect(all, outs))
  {
    if outs == [] {
      assert Under(p, []) == [];
    } else {
      assert AllMoved(p, outs)[1..] == AllMoved(p, outs[1..]);
      CollectMoved(p, all, outs[1..]);
      match (outs[0], Collect(all, outs[1..]))
      case (Errors(e), Errors(r)) => assert Under(p, e + r) == Under(p, e) + Under(p, r);
      case _ =>
    }
  }

  lemma {:induction false} FirstMoved(p: seq<string>, outs: seq<Outcome>)
    ensures First(AllMoved(p, outs)) == Moved(p, First(outs))
  {
    if outs == [] {
      assert Under(p, []) == [];
    } else {
      assert AllMoved(p, outs)[1..] == AllMoved(p, outs[1..]);
      assert Under(p, []) == [];
      FirstMoved(p, outs[1..]);
    }
  }

  lemma {:induction false} DepthMoved(p: seq<string>, paths: seq<seq<string>>)
    ensures Depth(Under(p, paths)) == if paths == [] then 0 else |p| + Depth(paths)
  {
    if paths != [] {
      var n := |paths| - 1;
      assert Under(p, paths)[..n] == Under(p, paths[..n]);
      DepthMoved(p, paths[..n]);
    }
  }

  /** The choice depends on relative depths only. */
  lemma {:induction false} ChooseMoved(p: seq<string>, outs: seq<Outcome>, path: seq<string>, longest: seq<seq<string>>, depth: nat,
                                       shifted: nat)
    requires shifted == |p| + depth || (depth == 0 && shifted == 0)
    ensures Choose(AllMoved(p, outs), p + path, Under(p, longest), shifted) == Moved(p, Choose(outs, path, longest, depth))
    decreases |outs|
  {
    if outs == [] {
      assert Under(p, [path]) == [p + path];
    } else {
      assert AllMoved(p, outs)[1..] == AllMoved(p, outs[1..]);
      assert Under(p, []) == [];
      match outs[0]
      case Threw =>
      case Errors(e) =>
        DepthMoved(p, e);
        if e != [] {
          if Depth(e) >= depth { ChooseMoved(p, outs[1..], path, e, Depth(e), |p| + Depth(e)); }
          else { ChooseMoved(p, outs[1..], path, longest, depth, shifted); }
        }
    }
  }

  /** Validating under a longer path moves every error there, and changes nothing else. */
  lemma {:induction false} Relocated(v: Validator, x: Value, all: bool, p: seq<string>, path: seq<string>)
    ensures Validate(v, x, all, p + path) == Moved(p, Validate(v, x, all, path))
    decreases v, 1
  {
    hide Collect, First, Choose, PartAt, Indexed, Iterated, Parts;
    var outs := Parts(v, x, all, path);
    assert Parts(v, x, all, p + path) == AllMoved(p, outs) by { PartsRelocated(v, x, all, p, path); }
    CollectMoved(p, all, outs);
    FirstMoved(p, outs);
    UnderOne(p, path);
    ChooseMoved(p, outs, path, [], 0, 0);
    if v.Schema? && v.previous.None? { Relocated(v.current, x, all, p, path); }
  }

  lemma {:induction false} PartsRelocated(v: Validator, x: Value, all: bool, p: seq<string>, path: seq<string>)
    ensures Parts(v, x, all, p + path) == AllMoved(p, Parts(v, x, all, path))
    decreases v, 0, 2
  {
    hide Validate, PartAt, PartCount;
    forall i | 0 <= i < PartCount(v, x) ensures PartAt(v, x, all, p + path, i) == Moved(p, PartAt(v, x, all, path, i))
    {
      PartRelocated(v, x, all, p, path, i);
    }
  }

  lemma {:induction false} PartRelocated(v: Validator, x: Value, all: bool, p: seq<string>, path: seq<string>, i: nat)
    requires i < PartCount(v, x)
    ensures PartAt(v, x, all, p + path, i) == Moved(p, PartAt(v, x, all, path, i))
    decreases v, 0, 1
  {
    hide Validate, Lookup, Digits, Characters, Moved, Under;
    match v
    case And(parts) => Relocated(parts[i], x, all, p, path);
    case Or(parts) => Relocated(parts[i], x, all, p, path);
    case Properties(props) =>
      var value := Lookup(x.entries, props[i].key);
      Deeper(p, path, props[i].key);
      if value.Some? { Relocated(props[i].validator, value.value, all, p, path + [props[i].key]); }
      else { UnderOne(p, path + [props[i].key]); }
    case WithElements(element) =>
      Deeper(p, path, Digits(i));
      Relocated(element, Indexed(x).items[i], all, p, path + [Digits(i)]);
    case Tuple(parts) =>
      if i == 0 { UnderOne(p, path); }
      else {
        Deeper(p, path, Digits(i - 1));
        Relocated(parts[i - 1], Indexed(x).items[i - 1], all, p, path + [Digits(i - 1)]);
      }
    case RecordOf(key, value) => EntryRelocated(v, x, all, p, path, i);
    case SetOf(element) =>
      Deeper(p, path, Digits(i));
      Relocated(element, Iterated(x).value[i], all, p, path + [Digits(i)]);
    case Schema(_, current, previous, _) =>
      if i == 0 { Relocated(previous.value, x, all, p, path); } else { Relocated(current, x, all, p, path); }
  }

  lemma {:induction false} EntryRelocated(v: Validator, x: Value, all: bool, p: seq<string>, path: seq<string>, i: nat)
    requires v.RecordOf? && i < PartCount(v, x)
    ensures PartAt(v, x, all, p + path, i) == Moved(p, PartAt(v, x, all, path, i))
    decreases v, 0, 0
  {
    hide Validate, Moved;
    var e := x.entries[i / 2];
    Deeper(p, path, "[" + e.key + "]");
    Deeper(p, path, e.key);
    if i % 2 == 0 { Relocated(v.key, Text(e.key), all, p, path + ["[" + e.key + "]"]); }
    else { Relocated(v.value, e.value, all, p, path + [e.key]); }
  }

  lemma Deeper(p: seq<string>, path: seq<string>, k: string)
    ensures p + (path + [k]) == (p + path) + [k]
  {
  }

  lemma UnderOne(p: seq<string>, path: seq<string>)
    ensures Moved(p, Errors([])) == Errors([]) && Moved(p, Errors([path])) == Errors([p + path]) && Under(p, []) == []
  {
    assert Under(p, []) == [] && Under(p, [path]) == [p + path];
  }

  /** Every reported path extends the given one. */
  lemma PathsExtend(v: Validator, x: Value, all: bool, path: seq<string>)
    ensures var o := Validate(v, x, all, path); o.Errors? ==> forall e :: e in o.paths ==> path <= e
  {
    hide Validate;
    Relocated(v, x, all, path, []);
    assert path + [] == path;
  }

  // ------------------------------------------------------------------ stopping at the first error

  /** Fail-fast agrees with collect-all: it reports nothing exactly when the other does, and never more than one. */
  predicate Agrees(fast: Outcome, full: Outcome)
  {
    full.Errors? ==> fast.Errors? && |fast.paths| <= 1 && (fast.paths == [] <==> full.paths == [])
  }

  lemma {:induction false} CollectAgrees(fast: seq<Outcome>, full: seq<Outcome>)
    requires |fast| == |full| && forall i :: 0 <= i < |full| ==> Agrees(fast[i], full[i])
    ensures Agrees(Collect(false, fast), Collect(true, full))
  {
    if full != [] {
      assert Agrees(fast[0], full[0]);
      forall i | 0 <= i < |full| - 1 ensures Agrees(fast[1..][i], full[1..][i]) { assert Agrees(fast[i + 1], full[i + 1]); }
      CollectAgrees(fast[1..], full[1..]);
    }
  }

  lemma {:induction false} FirstAgrees(fast: seq<Outcome>, full: seq<Outcome>)
    requires |fast| == |full| && forall i :: 0 <= i < |full| ==> Agrees(fast[i], full[i])
    ensures Agrees(First(fast), First(full))
  {
    if full != [] {
      assert Agrees(fast[0], full[0]);
      forall i | 0 <= i < |full| - 1 ensures Agrees(fast[1..][i], full[1..][i]) { assert Agrees(fast[i + 1], full[i + 1]); }
      FirstAgrees(fast[1..], full[1..]);
    }
  }

  lemma {:induction false} ChooseAgrees(fast: seq<Outcome>, full: seq<Outcome>, path: seq<string>, a: seq<seq<string>>, m: nat,
                                        b: seq<seq<string>>, n: nat)
    requires |fast| == |full| && forall i :: 0 <= i < |full| ==> Agrees(fast[i], full[i])
    requires |a| <= 1 && (m > |path| ==> a != []) && (n > |path| ==> b != [])
    ensures Agrees(Choose(fast, path, a, m), Choose(full, path, b, n))
    decreases |full|
  {
    if full != [] {
      assert Agrees(fast[0], full[0]);
      forall i | 0 <= i < |full| - 1 ensures Agrees(fast[1..][i], full[1..][i]) { assert Agrees(fast[i + 1], full[i + 1]); }
      if full[0].Errors? && full[0].paths != [] {
        var d, e := fast[0].paths, full[0].paths;
        var a1, m1 := if Depth(d) >= m then d else a, if Depth(d) >= m then Depth(d) else m;
        var b1, n1 := if Depth(e) >= n then e else b, if Depth(e) >= n then Depth(e) else n;
        ChooseAgrees(fast[1..], full[1..], path, a1, m1, b1, n1);
      }
    }
  }

  /** For every validator tree and every value on which collecting all errors does not throw. */
  lemma {:induction false} FailFastAgrees(v: Validator, x: Value, path: seq<string>)
    ensures Agrees(Validate(v, x, false, path), Validate(v, x, true, path))
    decreases v, 1
  {
    hide Collect, First, Choose, PartAt, Indexed, Iterated;
    var fast, full := Parts(v, x, false, path), Parts(v, x, true, path);
    forall i | 0 <= i < |full| ensures Agrees(fast[i], full[i]) { PartAgrees(v, x, path, i); }
    CollectAgrees(fast, full);
    FirstAgrees(fast, full);
    ChooseAgrees(fast, full, path, [], 0, [], 0);
    if v.Schema? && v.previous.None? { FailFastAgrees(v.current, x, path); }
  }

  lemma {:induction false} PartAgrees(v: Validator, x: Value, path: seq<string>, i: nat)
    requires i < PartCount(v, x)
    ensures Agrees(PartAt(v, x, false, path, i), PartAt(v, x, true, path, i))
    decreases v, 0
  {
    hide Validate, Lookup, Digits, Characters;
    match v
    case And(parts) => FailFastAgrees(parts[i], x, path);
    case Or(parts) => FailFastAgrees(parts[i], x, path);
    case Properties(props) =>
      var value := Lookup(x.entries, props[i].key);
      if value.Some? { FailFastAgrees(props[i].validator, value.value, path + [props[i].key]); }
    case WithElements(element) => FailFastAgrees(element, Indexed(x).items[i], path + [Digits(i)]);
    case Tuple(parts) => if i > 0 { FailFastAgrees(parts[i - 1], Indexed(x).items[i - 1], path + [Digits(i - 1)]); }
    case RecordOf(key, value) =>
      var e := x.entries[i / 2];
      if i % 2 == 0 { FailFastAgrees(key, Text(e.key), path + ["[" + e.key + "]"]); }
      else { FailFastAgrees(value, e.value, path + [e.key]); }
    case SetOf(element) => FailFastAgrees(element, Iterated(x).value[i], path + [Digits(i)]);
    case Schema(_, current, previous, _) =>
      if i == 0 { FailFastAgrees(previous.value, x, path); } else { FailFastAgrees(current, x, path); }
  }

  // ------------------------------------------------------------------ isValid and assert

  /** `isValid` goes by a fail-fast validation at no path; it throws where that does. */
  function IsValid(v: Validator, x: Value): Option<bool>
  {
    match v
    case Leaf(test) => Some(test(x))
    case _ => match Validate(v, x, false, []) case Threw => None case Errors(e) => Some(e == [])
  }

  /** `assert` fails with the first error of a fail-fast validation. */
  datatype Asserted = Passed | FailedAt(path: seq<string>) | AssertThrew

  function Assert(v: Validator, x: Value, path: seq<string>): Asserted
  {
    match v
    case Leaf(test) => if test(x) then Passed else FailedAt(path)
    case _ => match Validate(v, x, false, path) case Threw => AssertThrew
              case Errors(e) => if e == [] then Passed else FailedAt(e[0])
  }

  /** All ways to ask give the same answer, at every path. */
  lemma OneAnswer(v: Validator, x: Value, path: seq<string>)
    requires Validate(v, x, true, path).Errors?
    ensures var ok := Validate(v, x, true, path).paths == [];
            && Validate(v, x, false, path).Errors? && IsValid(v, x) == Some(ok)
            && (Assert(v, x, path) == Passed <==> ok)
            && Validate(v, x, false, path).paths == (match Assert(v, x, path) case FailedAt(p) => [p] case _ => [])
  {
    hide Collect, First, Choose, Parts;
    FailFastAgrees(v, x, path);
    Relocated(v, x, false, path, []);
    assert path + [] == path;
  }

  // ------------------------------------------------------------------ when nothing throws

  /** What a validator's acceptance says of a value at the least. */
  predicate Admits(v: Validator, x: Value)
    decreases v
  {
    match v
    case Leaf(test) => test(x)
    case And(parts) => forall i :: 0 <= i < |parts| ==> Admits(parts[i], x)
    case Or(_) => true
    case Properties(props) => x.Thing? || props == []
    case WithElements(_) => Indexed(x) != Throws
    case Tuple(_) => Indexed(x).Items?
    case RecordOf(_, _) => x.Thing?
    case SetOf(_) => Iterated(x).Some?
    case Schema(_, current, previous, _) => Admits(current, x) && (previous.Some? ==> Admits(previous.value, x))
  }

  /** Everything a validator takes apart has a part of the validator in front that asks for such a value. */
  predicate Guarded(v: Validator, x: Value)
    decreases v
  {
    match v
    case Leaf(_) => true
    case And(parts) =>
      forall i :: 0 <= i < |parts| ==> (forall j :: 0 <= j < i ==> Admits(parts[j], x)) ==> Guarded(parts[i], x)
    case Or(parts) => forall i :: 0 <= i < |parts| ==> Guarded(parts[i], x)
    case Properties(props) =>
      && (x.Thing? || props == [])
      && forall i :: 0 <= i < |props| ==>
           (match Lookup(x.entries, props[i].key) case None => true case Some(y) => Guarded(props[i].validator, y))
    case WithElements(element) =>
      (match Indexed(x) case Throws => false case NoLength => true
       case Items(s) => forall i :: 0 <= i < |s| ==> Guarded(element, s[i]))
    case Tuple(parts) =>
      (match Indexed(x) case Throws => false case NoLength => true
       case Items(s) => forall i :: 0 <= i < Minimum(|parts|, |s|) ==> Guarded(parts[i], s[i]))
    case RecordOf(key, value) =>
      x.Thing? && forall i :: 0 <= i < |x.entries| ==> Guarded(key, Text(x.entries[i].key)) && Guarded(value, x.entries[i].value)
    case SetOf(element) =>
      (match Iterated(x) case None => false case Some(s) => forall i :: 0 <= i < |s| ==> Guarded(element, s[i]))
    case Schema(_, current, previous, _) =>
      && (previous.Some? ==> Guarded(previous.value, x))
      && ((previous.Some? ==> Admits(previous.value, x)) ==> Guarded(current, x))
  }

  lemma {:induction false} AcceptedAdmits(v: Validator, x: Value, all: bool, path: seq<string>)
    requires Validate(v, x, all, path) == Errors([])
    ensures Admits(v, x)
    decreases v
  {
    hide Collect, Choose, Indexed, Iterated;
    match v
    case And(parts) =>
      var outs := Parts(v, x, all, path);
      FirstAccepts(outs);
      forall i | 0 <= i < |parts| ensures Admits(parts[i], x) {
        assert outs[i] == PartAt(v, x, all, path, i) == Validate(parts[i], x, all, path);
        AcceptedAdmits(parts[i], x, all, path);
      }
    case Schema(_, current, previous, _) =>
      if previous.Some? {
        var outs := Parts(v, x, all, path);
        FirstAccepts(outs);
        assert outs[0] == PartAt(v, x, all, path, 0) == Validate(previous.value, x, all, path);
        assert outs[1] == PartAt(v, x, all, path, 1) == Validate(current, x, all, path);
        AcceptedAdmits(previous.value, x, all, path);
      }
      AcceptedAdmits(current, x, all, path);
    case _ =>
  }

  predicate NoneThrew(outs: seq<Outcome>)
  {
    forall i :: 0 <= i < |outs| ==> outs[i].Errors?
  }

  lemma {:induction false} CollectReports(all: bool, outs: seq<Outcome>)
    requires NoneThrew(outs)
    ensures Collect(all, outs).Errors?
  {
    if outs != [] { CollectReports(all, outs[1..]); }
  }

  lemma {:induction false} ChooseReports(outs: seq<Outcome>, path: seq<string>, longest: seq<seq<string>>, depth: nat)
    requires NoneThrew(outs)
    ensures Choose(outs, path, longest, depth).Errors?
    decreases |outs|
  {
    if outs != [] {
      var e := outs[0].paths;
      if e != [] { ChooseReports(outs[1..], path, if Depth(e) >= depth then e else longest, if Depth(e) >= depth then Depth(e) else depth); }
    }
  }

  lemma {:induction false} FirstReports(outs: seq<Outcome>)
    requires forall i :: 0 <= i < |outs| ==> (forall j :: 0 <= j < i ==> outs[j] == Errors([])) ==> outs[i].Errors?
    ensures First(outs).Errors?
  {
    if outs != [] && outs[0] == Errors([]) {
      forall i | 0 <= i < |outs| - 1 && (forall j :: 0 <= j < i ==> outs[1..][j] == Errors([])) ensures outs[1..][i].Errors? {
        assert forall j :: 1 <= j < i + 1 ==> outs[j] == outs[1..][j - 1];
      }
      FirstReports(outs[1..]);
    }
  }

  /** A guarded validator reports and never throws, whether it collects or stops at the first error. */
  lemma {:induction false} GuardedReports(v: Validator, x: Value, all: bool, path: seq<string>)
    requires Guarded(v, x)
    ensures Validate(v, x, all, path).Errors?
    decreases v, 1
  {
    hide Collect, First, Choose, PartAt, Indexed, Iterated, Admits;
    var outs := Parts(v, x, all, path);
    match v
    case Leaf(_) =>
    case And(_) => InTurn(v, x, all, path);
    case Schema(_, current, previous, _) =>
      if previous.Some? { InTurn(v, x, all, path); } else { GuardedReports(current, x, all, path); }
    case _ =>
      forall i | 0 <= i < |outs| ensures outs[i].Errors? { PartReports(v, x, all, path, i); }
      CollectReports(all, outs);
      ChooseReports(outs, path, [], 0);
  }

  /** Parts that are asked in turn: each one only when those in front accept. */
  lemma {:induction false} InTurn(v: Validator, x: Value, all: bool, path: seq<string>)
    requires Guarded(v, x) && (v.And? || (v.Schema? && v.previous.Some?))
    ensures First(Parts(v, x, all, path)).Errors?
    decreases v, 0
  {
    hide Validate, First, Indexed, Iterated, Admits;
    var outs := Parts(v, x, all, path);
    forall i | 0 <= i < |outs| && (forall j :: 0 <= j < i ==> outs[j] == Errors([])) ensures outs[i].Errors?
    {
      match v {
        case And(parts) =>
          forall j | 0 <= j < i ensures Admits(parts[j], x) {
            assert outs[j] == Errors([]);
            AcceptedAdmits(parts[j], x, all, path);
          }
          GuardedReports(parts[i], x, all, path);
        case Schema(_, current, previous, _) =>
          if i == 0 {
            GuardedReports(previous.value, x, all, path);
          } else {
            assert outs[0] == Errors([]);
            AcceptedAdmits(previous.value, x, all, path);
            GuardedReports(current, x, all, path);
          }
      }
    }
    FirstReports(outs);
  }

  lemma {:induction false} PartReports(v: Validator, x: Value, all: bool, path: seq<string>, i: nat)
    requires Guarded(v, x) && !v.And? && !v.Schema? && i < PartCount(v, x)
    ensures PartAt(v, x, all, path, i).Errors?
    decreases v, 0
  {
    hide Validate, Lookup, Digits, Characters, Admits;
    match v
    case Or(parts) => GuardedReports(parts[i], x, all, path);
    case Properties(props) =>
      var value := Lookup(x.entries, props[i].key);
      if value.Some? { GuardedReports(props[i].validator, value.value, all, path + [props[i].key]); }
    case WithElements(element) => GuardedReports(element, Indexed(x).items[i], all, path + [Digits(i)]);
    case Tuple(parts) => if i > 0 { GuardedReports(parts[i - 1], Indexed(x).items[i - 1], all, path + [Digits(i - 1)]); }
    case RecordOf(key, value) =>
      var e := x.entries[i / 2];
      if i % 2 == 0 { GuardedReports(key, Text(e.key), all, path + ["[" + e.key + "]"]); }
      else { GuardedReports(value, e.value, all, path + [e.key]); }
    case SetOf(element) => GuardedReports(element, Iterated(x).value[i], all, path + [Digits(i)]);
  }

  /** A guarded validator gives one answer, whichever way it is asked. */
  lemma GuardedAnswer(v: Validator, x: Value, path: seq<string>)
    requires Guarded(v, x)
    ensures var full := Validate(v, x, true, path);
            && full.Errors? && IsValid(v, x) == Some(full.paths == []) && (Assert(v, x, path) == Passed <==> full.paths == [])
  {
    hide Validate;
    GuardedReports(v, x, true, path);
    OneAnswer(v, x, path);
  }

  /** Otherwise the answers can differ: a union of a pair whose second position is taken apart unguarded, and of anything.
      On a pair with a wrong first and nothing as its second, stopping early accepts and collecting throws. */
  lemma AnswersCanDiffer(no: Value -> bool, yes: Value -> bool, p: Property, x: Value)
    requires !no(x) && yes(Thing([], Some([x, Nothing]), None))
    ensures var v := Or([Tuple([Leaf(no), Properties([p])]), Leaf(yes)]);
            var pair := Thing([], Some([x, Nothing]), None);
            Validate(v, pair, false, []) == Errors([]) && Validate(v, pair, true, []) == Threw
  {
    hide Depth;
    var t, pair := Tuple([Leaf(no), Properties([p])]), Thing([], Some([x, Nothing]), None);
    var v := Or([t, Leaf(yes)]);
    PairParts(no, p, x, false);
    PairParts(no, p, x, true);
    FirstWrong(Parts(t, pair, false, []), [] + [Digits(0)]);
    SecondThrows(Parts(t, pair, true, []), [] + [Digits(0)]);
    assert Parts(v, pair, false, [])[0] == Validate(t, pair, false, []);
    assert PartAt(v, pair, false, [], 1) == Validate(Leaf(yes), pair, false, []) == Errors([]);
    assert Parts(v, pair, true, [])[0] == Validate(t, pair, true, []);
    SecondAccepts(Parts(v, pair, false, []), [], [], 0);
  }

  lemma PairParts(no: Value -> bool, p: Property, x: Value, all: bool)
    requires !no(x)
    ensures var outs := Parts(Tuple([Leaf(no), Properties([p])]), Thing([], Some([x, Nothing]), None), all, []);
            outs == [Errors([]), Errors([[] + [Digits(0)]]), Threw]
  {
    var t, pair := Tuple([Leaf(no), Properties([p])]), Thing([], Some([x, Nothing]), None);
    assert PartCount(t, pair) == 3;
    assert PartAt(t, pair, all, [], 0) == Errors([]);
    assert PartAt(t, pair, all, [], 1) == Errors([[] + [Digits(0)]]);
    assert PartAt(t, pair, all, [], 2) == Threw;
  }

  lemma FirstWrong(outs: seq<Outcome>, e: seq<string>)
    requires outs == [Errors([]), Errors([e]), Threw]
    ensures Collect(false, outs) == Errors([e])
  {
    assert outs[1..][0] == Errors([e]);
    assert Collect(false, outs[1..]) == Errors([e]);
    assert [] + [e] == [e];
  }

  lemma SecondThrows(outs: seq<Outcome>, e: seq<string>)
    requires outs == [Errors([]), Errors([e]), Threw]
    ensures Collect(true, outs) == Threw
  {
    assert outs[1..][0] == Errors([e]) && outs[1..][1..][0] == Threw;
    assert Collect(true, outs[1..][1..]) == Threw;
    assert Collect(true, outs[1..]) == Threw;
  }

  lemma SecondAccepts(outs: seq<Outcome>, path: seq<string>, longest: seq<seq<string>>, depth: nat)
    requires |outs| == 2 && outs[0].Errors? && outs[1] == Errors([])
    ensures Choose(outs, path, longest, depth) == Errors([])
  {
    hide Depth;
    assert outs[1..][0] == outs[1];
  }

  // ------------------------------------------------------------------ the deepest error of a union

  predicate AllFail(outs: seq<Outcome>)
  {
    forall i :: 0 <= i < |outs| ==> outs[i].Errors? && outs[i].paths != []
  }

  /** A union that fails reports the errors of the last alternative among those that got deepest; if none got
      deeper than the union itself, it reports itself. */
  lemma {:induction false} DeepestChosen(outs: seq<Outcome>, path: seq<string>, longest: seq<seq<string>>, depth: nat) returns (k: int)
    requires AllFail(outs)
    ensures -1 <= k < |outs|
    ensures k == -1 ==> (forall i :: 0 <= i < |outs| ==> Depth(outs[i].paths) < depth)
                        && Choose(outs, path, longest, depth) == Errors(if depth > |path| then longest else [path])
    ensures k >= 0 ==> Depth(outs[k].paths) >= depth
                       && (forall i :: 0 <= i < |outs| ==> Depth(outs[i].paths) <= Depth(outs[k].paths))
                       && (forall i :: k < i < |outs| ==> Depth(outs[i].paths) < Depth(outs[k].paths))
                       && Choose(outs, path, longest, depth) == Errors(if Depth(outs[k].paths) > |path| then outs[k].paths else [path])
    decreases |outs|
  {
    hide Depth;
    if outs == [] {
      k := -1;
    } else {
      var e, rest := outs[0].paths, outs[1..];
      assert forall i :: 0 <= i < |rest| ==> rest[i] == outs[i + 1];
      var j;
      if Depth(e) >= depth { j := DeepestChosen(rest, path, e, Depth(e)); }
      else { j := DeepestChosen(rest, path, longest, depth); }
      k := if j >= 0 then j + 1 else if Depth(e) >= depth then 0 else -1;
      assert forall i :: 1 <= i < |outs| ==> outs[i] == rest[i - 1];
    }
  }

  // ------------------------------------------------------------------ partial schemas

  /** The `partial` of validators that have one; others stay as they are. */
  function Partial(v: Validator): Validator
    decreases v, 1
  {
    match v
    case Properties(props) => Properties(AllOptional(props))
    case Schema(isObject, _, _, _) => if isObject then ClonePartial(v) else v
    case _ => v
  }

  /** A schema rebuilt link by link. */
  function ClonePartial(v: Validator): Validator
    decreases v, 0
  {
    match v
    case Schema(isObject, current, previous, optional) =>
      Schema(isObject, Partial(current), match previous case None => None case Some(p) => Some(ClonePartial(p)), optional)
    case _ => v
  }

  function AllOptional(props: seq<Property>): seq<Property>
  {
    if props == [] then [] else [props[0].(optional := true)] + AllOptional(props[1..])
  }

  function PartialDeep(v: Validator): Validator
    decreases v, 1
  {
    match v
    case Properties(props) => Properties(AllPartialDeep(props))
    case Schema(isObject, _, _, _) => if isObject then ClonePartialDeep(v) else v
    case _ => v
  }

  function ClonePartialDeep(v: Validator): Validator
    decreases v, 0
  {
    match v
    case Schema(isObject, current, previous, optional) =>
      Schema(isObject, PartialDeep(current), match previous case None => None case Some(p) => Some(ClonePartialDeep(p)), optional)
    case _ => v
  }

  function AllPartialDeep(props: seq<Property>): seq<Property>
    decreases props
  {
    if props == [] then []
    else [Property(props[0].key, PartialDeep(props[0].validator), true)] + AllPartialDeep(props[1..])
  }

  predicate Accepts(v: Validator, x: Value, path: seq<string>)
  {
    Validate(v, x, true, path) == Errors([])
  }

  lemma {:induction false} CollectAccepts(all: bool, outs: seq<Outcome>)
    ensures Collect(all, outs) == Errors([]) <==> forall i :: 0 <= i < |outs| ==> outs[i] == Errors([])
  {
    if outs != [] {
      CollectAccepts(all, outs[1..]);
      assert forall i :: 1 <= i < |outs| ==> outs[i] == outs[1..][i - 1];
    }
  }

  lemma {:induction false} FirstAccepts(outs: seq<Outcome>)
    ensures First(outs) == Errors([]) <==> forall i :: 0 <= i < |outs| ==> outs[i] == Errors([])
  {
    if outs != [] {
      FirstAccepts(outs[1..]);
      assert forall i :: 1 <= i < |outs| ==> outs[i] == outs[1..][i - 1];
    }
  }

  lemma {:induction false} OptionalAt(props: seq<Property>)
    ensures |AllOptional(props)| == |props| && forall i :: 0 <= i < |props| ==> AllOptional(props)[i] == props[i].(optional := true)
  {
    if props != [] {
      OptionalAt(props[1..]);
      assert forall i :: 1 <= i < |props| ==> props[i] == props[1..][i - 1];
    }
  }

  lemma {:induction false} PartialDeepAt(props: seq<Property>)
    ensures |AllPartialDeep(props)| == |props|
    ensures forall i :: 0 <= i < |props| ==> AllPartialDeep(props)[i] == Property(props[i].key, PartialDeep(props[i].validator), true)
  {
    hide PartialDeep;
    if props != [] {
      PartialDeepAt(props[1..]);
      assert forall i :: 1 <= i < |props| ==> props[i] == props[1..][i - 1];
    }
  }

  /** What a list of properties accepts, another one with the same keys accepts, if each property does and is optional
      where the first is. */
  lemma PropertiesAccept(a: seq<Property>, b: seq<Property>, x: Value, path: seq<string>)
    requires |a| == |b| && forall i :: 0 <= i < |a| ==> b[i].key == a[i].key && (a[i].optional ==> b[i].optional)
    requires Accepts(Properties(a), x, path)
    requires forall i, y :: 0 <= i < |a| && Accepts(a[i].validator, y, path + [a[i].key]) ==> Accepts(b[i].validator, y, path + [a[i].key])
    ensures Accepts(Properties(b), x, path)
  {
    hide Collect;
    var v, w := Properties(a), Properties(b);
    var before, behind := Parts(v, x, true, path), Parts(w, x, true, path);
    CollectAccepts(true, before);
    CollectAccepts(true, behind);
    if x.Thing? {
      forall i | 0 <= i < |behind| ensures behind[i] == Errors([])
      {
        assert before[i] == Errors([]);
        PropertyAccepts(v, w, x, path, i);
      }
    }
  }

  lemma PropertyAccepts(v: Validator, w: Validator, x: Value, path: seq<string>, i: nat)
    requires v.Properties? && w.Properties? && i < PartCount(v, x) && i < PartCount(w, x)
    requires w.props[i].key == v.props[i].key && (v.props[i].optional ==> w.props[i].optional)
    requires forall y :: Accepts(v.props[i].validator, y, path + [v.props[i].key]) ==> Accepts(w.props[i].validator, y, path + [v.props[i].key])
    requires PartAt(v, x, true, path, i) == Errors([])
    ensures PartAt(w, x, true, path, i) == Errors([])
  {
    hide Validate, Lookup;
    var value := Lookup(x.entries, v.props[i].key);
    if value.Some? { assert Accepts(v.props[i].validator, value.value, path + [v.props[i].key]); }
  }

  lemma SchemaParts(v: Validator, x: Value, path: seq<string>)
    requires v.Schema? && v.previous.Some?
    ensures PartAt(v, x, true, path, 0) == Validate(v.previous.value, x, true, path)
    ensures PartAt(v, x, true, path, 1) == Validate(v.current, x, true, path)
  {
    hide Validate;
  }

  lemma SchemaAccepts(v: Validator, x: Value, path: seq<string>)
    requires v.Schema?
    ensures Accepts(v, x, path) <==> Accepts(v.current, x, path) && (v.previous.Some? ==> Accepts(v.previous.value, x, path))
  {
    hide First;
    FirstAccepts(Parts(v, x, true, path));
    if v.previous.Some? {
      var outs := Parts(v, x, true, path);
      assert outs[0] == PartAt(v, x, true, path, 0) && outs[1] == PartAt(v, x, true, path, 1);
      SchemaParts(v, x, path);
    }
  }

  /** What a schema accepts, its `partial` accepts. */
  lemma {:induction false} PartialAccepts(v: Validator, x: Value, path: seq<string>)
    requires Accepts(v, x, path)
    ensures Accepts(Partial(v), x, path)
    decreases v, 1
  {
    hide Accepts;
    match v
    case Properties(props) =>
      OptionalAt(props);
      PropertiesAccept(props, AllOptional(props), x, path);
    case Schema(isObject, _, _, _) => if isObject { CloneAccepts(v, x, path); }
    case _ =>
  }

  lemma {:induction false} CloneAccepts(v: Validator, x: Value, path: seq<string>)
    requires Accepts(v, x, path)
    ensures Accepts(ClonePartial(v), x, path)
    decreases v, 0
  {
    hide Accepts, Partial;
    match v
    case Schema(_, current, previous, _) =>
      SchemaAccepts(v, x, path);
      PartialAccepts(current, x, path);
      if previous.Some? { CloneAccepts(previous.value, x, path); }
      SchemaAccepts(ClonePartial(v), x, path);
    case _ =>
  }

  /** And its `partialDeep`, in which the properties of properties are optional too. */
  lemma {:induction false} PartialDeepAccepts(v: Validator, x: Value, path: seq<string>)
    requires Accepts(v, x, path)
    ensures Accepts(PartialDeep(v), x, path)
    decreases v, 1
  {
    hide Accepts;
    match v
    case Properties(props) =>
      PartialDeepAt(props);
      var deep := AllPartialDeep(props);
      forall i, y | 0 <= i < |props| && Accepts(props[i].validator, y, path + [props[i].key])
        ensures Accepts(deep[i].validator, y, path + [props[i].key])
      {
        PartialDeepAccepts(props[i].validator, y, path + [props[i].key]);
      }
      PropertiesAccept(props, deep, x, path);
    case Schema(isObject, _, _, _) => if isObject { CloneDeepAccepts(v, x, path); }
    case _ =>
  }

  lemma {:induction false} CloneDeepAccepts(v: Validator, x: Value, path: seq<string>)
    requires Accepts(v, x, path)
    ensures Accepts(ClonePartialDeep(v), x, path)
    decreases v, 0
  {
    hide Accepts, PartialDeep;
    match v
    case Schema(_, current, previous, _) =>
      SchemaAccepts(v, x, path);
      PartialDeepAccepts(current, x, path);
      if previous.Some? { CloneDeepAccepts(previous.value, x, path); }
      SchemaAccepts(ClonePartialDeep(v), x, path);
    case _ =>
  }
}
