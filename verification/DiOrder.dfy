/** When a dependency is disposed after the one that reads it: the order of disposal against the order in time. */
module DiOrder {
  import opened Di
  import opened Wrappers

  /** A factory call as it begins, with the flags from just before. */
  datatype Start = Start(key: string, flags: Flags)

  /** The factory calls a read makes, in the order in which they begin. */
  function Starts(f: Factories, flags: Flags, key: string): seq<Start>
    decreases Unmarked(f, flags), 0
  {
    if key !in f || key in flags.created || key in flags.creating then []
    else
      BeginShrinks(f, flags, key);
      [Start(key, flags)] + StartsIn(f, Begin(flags, key), key, 0)
  }

  /** Those made by the factory of `key` from its `i`-th action on. */
  function StartsIn(f: Factories, flags: Flags, key: string, i: nat): seq<Start>
    requires key in f && i <= |f[key].script|
    decreases Unmarked(f, flags), 1 + |f[key].script| - i
  {
    if i == |f[key].script| then []
    else
      match f[key].script[i]
      case Add(_) => StartsIn(f, flags, key, i + 1)
      case Read(dep) =>
        var b := Build(f, flags, dep);
        GrowsShrinks(f, flags, b.flags);
        Starts(f, flags, dep) + if b.error.Some? then [] else StartsIn(f, b.flags, key, i + 1)
  }

  function Begun(starts: seq<Start>): seq<string>
  {
    seq(|starts|, k requires 0 <= k < |starts| => starts[k].key)
  }

  predicate Marked(flags: Flags, k: string)
  {
    k in flags.created || k in flags.creating
  }

  lemma BegunBoth(a: seq<Start>, b: seq<Start>)
    ensures Begun(a + b) == Begun(a) + Begun(b)
  {
  }

  lemma StartsStep(f: Factories, flags: Flags, key: string)
    requires key in f && key !in flags.created && key !in flags.creating
    ensures Starts(f, flags, key) == [Start(key, flags)] + StartsIn(f, Begin(flags, key), key, 0)
  {
  }

  lemma StartsInStep(f: Factories, flags: Flags, key: string, i: nat)
    requires key in f && i < |f[key].script|
    ensures StartsIn(f, flags, key, i) == match f[key].script[i]
              case Add(_) => StartsIn(f, flags, key, i + 1)
              case Read(dep) =>
                var b := Build(f, flags, dep);
                Starts(f, flags, dep) + if b.error.Some? then [] else StartsIn(f, b.flags, key, i + 1)
  {
    hide Build, Starts;
  }

  /** The calls as they begin are the calls of the forest in pre-order. */
  lemma {:induction false} BegunAre(f: Factories, flags: Flags, key: string)
    ensures Begun(Starts(f, flags, key)) == KeysOf(Build(f, flags, key).trees)
    decreases Unmarked(f, flags), 0
  {
    hide Build, RunScript, Unmarked, StartsIn;
    BuildStep(f, flags, key);
    if key in f && key !in flags.created && key !in flags.creating {
      BeginShrinks(f, flags, key);
      BegunInAre(f, Begin(flags, key), key, 0, [], []);
      var r := RunScript(f, Begin(flags, key), key, 0, [], []);
      BegunBoth([Start(key, flags)], StartsIn(f, Begin(flags, key), key, 0));
      var t := Node(key, r.error.None?, r.adds, r.children);
      assert [t][1..] == [];
      assert KeysOf([t]) == [key] + KeysOf(r.children) + KeysOf([]);
      assert KeysOf([]) + Begun(StartsIn(f, Begin(flags, key), key, 0)) == Begun(StartsIn(f, Begin(flags, key), key, 0));
    }
  }

  lemma {:induction false} BegunInAre(f: Factories, flags: Flags, key: string, i: nat, adds: seq<Item>, children: seq<Tree>)
    requires key in f && i <= |f[key].script|
    ensures KeysOf(RunScript(f, flags, key, i, adds, children).children) == KeysOf(children) + Begun(StartsIn(f, flags, key, i))
    decreases Unmarked(f, flags), 1 + |f[key].script| - i
  {
    hide Build, RunScript, Unmarked, KeysOf, Starts;
    RunStep(f, flags, key, i, adds, children);
    if i == |f[key].script| {
      assert KeysOf(children) + Begun([]) == KeysOf(children);
    } else {
      StartsInStep(f, flags, key, i);
      match f[key].script[i]
      case Add(present) =>
        BegunInAre(f, flags, key, i + 1, if present then adds + [Added(key, i)] else adds, children);
      case Read(dep) =>
        var b := Build(f, flags, dep);
        GrowsShrinks(f, flags, b.flags);
        BegunAre(f, flags, dep);
        KeysAppend(children, b.trees);
        if b.error.None? {
          BegunInAre(f, b.flags, key, i + 1, adds, children + b.trees);
          var rest := StartsIn(f, b.flags, key, i + 1);
          BegunBoth(Starts(f, flags, dep), rest);
          assert (KeysOf(children) + KeysOf(b.trees)) + Begun(rest) == KeysOf(children) + (KeysOf(b.trees) + Begun(rest));
        } else {
          assert Starts(f, flags, dep) + [] == Starts(f, flags, dep);
        }
    }
  }

  /** When a call begins, what is marked is what was marked before the read and what has begun since. */
  ghost predicate MarkedAt(flags: Flags, starts: seq<Start>, m: nat)
    requires m < |starts|
  {
    var at := starts[m].flags;
    at.created !! at.creating && forall k :: Marked(at, k) <==> Marked(flags, k) || k in Begun(starts)[..m]
  }

  lemma {:induction false} StartFlags(f: Factories, flags: Flags, key: string, m: nat)
    requires flags.created !! flags.creating && m < |Starts(f, flags, key)|
    ensures MarkedAt(flags, Starts(f, flags, key), m)
    decreases Unmarked(f, flags), 0
  {
    hide Unmarked, StartsIn, MarkedAt;
    var starts, rest := Starts(f, flags, key), StartsIn(f, Begin(flags, key), key, 0);
    BeginShrinks(f, flags, key);
    if m == 0 { FirstMarked(flags, starts); } else {
      StartFlagsIn(f, Begin(flags, key), key, 0, m - 1);
      assert Begun([Start(key, flags)]) == [key];
      LaterMarked(flags, [Start(key, flags)], Begin(flags, key), rest, m - 1);
    }
  }

  lemma FirstMarked(flags: Flags, starts: seq<Start>)
    requires starts != [] && starts[0].flags == flags && flags.created !! flags.creating
    ensures MarkedAt(flags, starts, 0)
  {
  }

  /** What began before adds to what is marked. */
  lemma LaterMarked(flags: Flags, a: seq<Start>, between: Flags, b: seq<Start>, m: nat)
    requires m < |b| && MarkedAt(between, b, m)
    requires forall k :: Marked(between, k) <==> Marked(flags, k) || k in Begun(a)
    ensures MarkedAt(flags, a + b, |a| + m)
  {
    BegunBoth(a, b);
    assert Begun(a + b)[..|a| + m] == Begun(a) + Begun(b)[..m];
  }

  lemma EarlierMarked(flags: Flags, a: seq<Start>, b: seq<Start>, m: nat)
    requires m < |a| && MarkedAt(flags, a, m)
    ensures MarkedAt(flags, a + b, m)
  {
    BegunBoth(a, b);
    assert Begun(a + b)[..m] == Begun(a)[..m];
  }

  lemma {:induction false} StartFlagsIn(f: Factories, flags: Flags, key: string, i: nat, m: nat)
    requires key in f && i <= |f[key].script| && flags.created !! flags.creating && m < |StartsIn(f, flags, key, i)|
    ensures MarkedAt(flags, StartsIn(f, flags, key, i), m)
    decreases Unmarked(f, flags), 1 + |f[key].script| - i
  {
    hide Build, Unmarked, Starts, MarkedAt, Marked, Begun;
    StartsInStep(f, flags, key, i);
    match f[key].script[i]
    case Add(_) => StartFlagsIn(f, flags, key, i + 1, m);
    case Read(dep) =>
      var b := Build(f, flags, dep);
      var first := Starts(f, flags, dep);
      GrowsShrinks(f, flags, b.flags);
      CreatingKept(f, flags, dep);
      if m < |first| {
        StartFlags(f, flags, dep, m);
        EarlierMarked(flags, first, if b.error.Some? then [] else StartsIn(f, b.flags, key, i + 1), m);
      } else {
        StartFlagsIn(f, b.flags, key, i + 1, m - |first|);
        MarkedBy(f, flags, dep);
        LaterMarked(flags, first, b.flags, StartsIn(f, b.flags, key, i + 1), m - |first|);
      }
  }

  /** A read marks what it begins. */
  lemma MarkedBy(f: Factories, flags: Flags, key: string)
    requires flags.created !! flags.creating
    ensures forall k :: Marked(Build(f, flags, key).flags, k) <==> Marked(flags, k) || k in Begun(Starts(f, flags, key))
  {
    hide Build, Starts, KeysOf, AddsOwn, Distinct, Begun;
    BegunAre(f, flags, key);
    BuildFresh(f, flags, key);
    var b := Build(f, flags, key);
    forall k ensures Marked(b.flags, k) <==> Marked(flags, k) || k in Begun(Starts(f, flags, key))
    {
      assert k in b.flags.created + b.flags.creating <==> Marked(b.flags, k);
      assert k in flags.created + flags.creating <==> Marked(flags, k);
    }
  }

  /** In a successful read no call reads what is under construction around it, nor itself. */
  lemma {:induction false} ReadsFree(f: Factories, flags: Flags, key: string, m: nat, d: string)
    requires flags.created !! flags.creating && Build(f, flags, key).error.None?
    requires m < |Starts(f, flags, key)| && Reads(f, Starts(f, flags, key)[m].key, d) && d in f
    ensures var s := Starts(f, flags, key)[m]; d !in Begin(s.flags, s.key).creating
    decreases Unmarked(f, flags), 0
  {
    hide Build, RunScript, Unmarked, StartsIn;
    BuildStep(f, flags, key);
    BeginShrinks(f, flags, key);
    if m == 0 {
      var i :| 0 <= i < |f[key].script| && f[key].script[i] == Read(d);
      OwnReadFree(f, Begin(flags, key), key, 0, [], [], i);
    } else {
      ReadsFreeIn(f, Begin(flags, key), key, 0, [], [], m - 1, d);
    }
  }

  lemma {:induction false} OwnReadFree(f: Factories, flags: Flags, key: string, i: nat, adds: seq<Item>, children: seq<Tree>, at: nat)
    requires key in f && i <= at < |f[key].script| && flags.created !! flags.creating
    requires RunScript(f, flags, key, i, adds, children).error.None?
    requires f[key].script[at].Read? && f[key].script[at].key in f
    ensures f[key].script[at].key !in flags.creating
    decreases Unmarked(f, flags), 1 + |f[key].script| - i
  {
    hide Build, RunScript, Unmarked;
    RunStep(f, flags, key, i, adds, children);
    match f[key].script[i]
    case Add(present) => OwnReadFree(f, flags, key, i + 1, if present then adds + [Added(key, i)] else adds, children, at);
    case Read(dep) =>
      var b := Build(f, flags, dep);
      GrowsShrinks(f, flags, b.flags);
      CreatingKept(f, flags, dep);
      BuildStep(f, flags, dep);
      if i < at { OwnReadFree(f, b.flags, key, i + 1, adds, children + b.trees, at); }
  }

  lemma {:induction false} ReadsFreeIn(f: Factories, flags: Flags, key: string, i: nat, adds: seq<Item>, children: seq<Tree>,
                                       m: nat, d: string)
    requires key in f && i <= |f[key].script| && flags.created !! flags.creating
    requires RunScript(f, flags, key, i, adds, children).error.None?
    requires m < |StartsIn(f, flags, key, i)| && Reads(f, StartsIn(f, flags, key, i)[m].key, d) && d in f
    ensures var s := StartsIn(f, flags, key, i)[m]; d !in Begin(s.flags, s.key).creating
    decreases Unmarked(f, flags), 1 + |f[key].script| - i
  {
    hide Build, RunScript, Unmarked, Starts, Reads, Begin;
    RunStep(f, flags, key, i, adds, children);
    StartsInStep(f, flags, key, i);
    match f[key].script[i]
    case Add(present) => ReadsFreeIn(f, flags, key, i + 1, if present then adds + [Added(key, i)] else adds, children, m, d);
    case Read(dep) =>
      var b := Build(f, flags, dep);
      GrowsShrinks(f, flags, b.flags);
      CreatingKept(f, flags, dep);
      var first := Starts(f, flags, dep);
      if m < |first| { ReadsFree(f, flags, dep, m, d); }
      else { ReadsFreeIn(f, b.flags, key, i + 1, adds, children + b.trees, m - |first|, d); }
  }

  // ------------------------------------------------------------------ dependent and dependency

  /** A dependency is disposed after the one that reads it exactly when it was not there yet as the factory of that
      one began: for every call a successful read makes, whatever was built before and is built later. */
  lemma DisposedAfterIff(f: Factories, forest: seq<Tree>, flags: Flags, key: string, later: seq<Tree>, m: nat, d: string,
                         i: nat, j: nat)
    requires flags.created !! flags.creating && Fresh({}, flags, forest) && Build(f, flags, key).error.None?
    requires m < |Starts(f, flags, key)| && Reads(f, Starts(f, flags, key)[m].key, d) && d in f
    requires var all := forest + Build(f, flags, key).trees + later;
             && AddsOwn(all) && Distinct(KeysOf(all)) && i < |Preorders(f, all)| && j < |Preorders(f, all)|
             && Preorders(f, all)[i].key == Starts(f, flags, key)[m].key && Preorders(f, all)[j].key == d
    ensures i < j <==> d !in Starts(f, flags, key)[m].flags.created
  {
    hide Build, Starts, KeysOf, AddsOwn, Distinct, Preorders, Reads, Begin;
    var b := Build(f, flags, key);
    var s := Starts(f, flags, key)[m];
    var all := forest + b.trees + later;
    var keys := KeysOf(all);
    KeysAppend(forest + b.trees, later);
    KeysAppend(forest, b.trees);
    BegunAre(f, flags, key);
    var pos := |KeysOf(forest)| + m;
    assert keys[pos] == s.key;
    ItemKeys(f, all, Preorders(f, all)[j]);
    var n :| 0 <= n < |keys| && keys[n] == d;
    Before(f, forest, flags, key, later, m, d, n);
    DisposedAsBegun(f, all, i, j, pos, n);
  }

  lemma Before(f: Factories, forest: seq<Tree>, flags: Flags, key: string, later: seq<Tree>, m: nat, d: string, n: nat)
    requires flags.created !! flags.creating && Fresh({}, flags, forest) && Build(f, flags, key).error.None?
    requires m < |Starts(f, flags, key)| && Reads(f, Starts(f, flags, key)[m].key, d) && d in f
    requires KeysOf(forest + Build(f, flags, key).trees + later)
          == KeysOf(forest) + KeysOf(Build(f, flags, key).trees) + KeysOf(later)
    requires var keys := KeysOf(forest + Build(f, flags, key).trees + later); Distinct(keys) && n < |keys| && keys[n] == d
    ensures var pos := |KeysOf(forest)| + m;
            n != pos && (pos < n <==> d !in Starts(f, flags, key)[m].flags.created)
  {
    hide Build, Starts, AddsOwn, Reads, Begun;
    var starts := Starts(f, flags, key);
    var s := starts[m];
    var b := Build(f, flags, key);
    var keys := KeysOf(forest + b.trees + later);
    var pos := |KeysOf(forest)| + m;
    hide KeysOf;
    StartFlags(f, flags, key, m);
    ReadsFree(f, flags, key, m, d);
    BegunAre(f, flags, key);
    BegunLength(starts);
    assert keys[..pos] == KeysOf(forest) + Begun(starts)[..m];
    assert d in keys[..pos] <==> Marked(flags, d) || d in Begun(starts)[..m] by {
      assert d in flags.created + flags.creating <==> d in KeysOf(forest);
    }
    assert keys[pos] == s.key;
    if d in keys[..pos] { var k :| 0 <= k < pos && keys[k] == d; }
  }

  lemma BegunLength(starts: seq<Start>)
    ensures |Begun(starts)| == |starts| && forall k :: 0 <= k < |starts| ==> Begun(starts)[k] == starts[k].key
  {
  }

  /** For the key that is read itself: its dependency goes after it exactly when it was not there before the read. */
  lemma DependencyAfterIff(f: Factories, forest: seq<Tree>, flags: Flags, key: string, later: seq<Tree>, d: string, i: nat, j: nat)
    requires flags.created !! flags.creating && Fresh({}, flags, forest) && Build(f, flags, key).error.None?
    requires key in f && key !in flags.created && Reads(f, key, d) && d in f
    requires var all := forest + Build(f, flags, key).trees + later;
             && AddsOwn(all) && Distinct(KeysOf(all)) && i < |Preorders(f, all)| && j < |Preorders(f, all)|
             && Preorders(f, all)[i].key == key && Preorders(f, all)[j].key == d
    ensures i < j <==> d !in flags.created
  {
    hide Build, KeysOf, AddsOwn, Distinct, Preorders, Reads, Fresh, Starts;
    BuildStep(f, flags, key);
    StartsStep(f, flags, key);
    DisposedAfterIff(f, forest, flags, key, later, 0, d, i, j);
  }

  // ------------------------------------------------------------------ all there is to dispose

  /** What the factory of `key` registers from its `i`-th action on, the last first. */
  function LastFirst(script: seq<Action>, key: string, i: nat): seq<Item>
    decreases |script| - i
  {
    if i >= |script| then [] else LastFirst(script, key, i + 1) + (if script[i] == Add(true) then [Added(key, i)] else [])
  }

  /** A value that is the container's to dispose, and behind it what its factory registered. */
  function ItemsOf(f: Factories, key: string): seq<Item>
    requires key in f
  {
    (if f[key].disposable && !f[key].external then [Value(key)] else []) + LastFirst(f[key].script, key, 0)
  }

  function AllItems(f: Factories, keys: seq<string>): seq<Item>
    requires forall k :: k in keys ==> k in f
  {
    if keys == [] then [] else ItemsOf(f, keys[0]) + AllItems(f, keys[1..])
  }

  /** What the factory registers from its `i`-th action on, in order. */
  function InOrder(script: seq<Action>, key: string, i: nat): seq<Item>
    decreases |script| - i
  {
    if i >= |script| then [] else (if script[i] == Add(true) then [Added(key, i)] else []) + InOrder(script, key, i + 1)
  }

  lemma {:induction false} NewestIsLastFirst(script: seq<Action>, key: string, i: nat)
    ensures Newest(InOrder(script, key, i)) == LastFirst(script, key, i)
    decreases |script| - i
  {
    if i < |script| {
      NewestIsLastFirst(script, key, i + 1);
      var rest := InOrder(script, key, i + 1);
      assert [] + rest == rest && LastFirst(script, key, i + 1) + [] == LastFirst(script, key, i + 1);
    }
  }

  /** Every factory ran to its end, and registered all it had to. */
  predicate RanThrough(f: Factories, ts: seq<Tree>)
  {
    ts != [] ==>
      && ts[0].complete && ts[0].key in f && ts[0].adds == InOrder(f[ts[0].key].script, ts[0].key, 0)
      && RanThrough(f, ts[0].children) && RanThrough(f, ts[1..])
  }

  lemma {:induction false} RanBoth(f: Factories, a: seq<Tree>, b: seq<Tree>)
    requires RanThrough(f, a) && RanThrough(f, b)
    ensures RanThrough(f, a + b)
  {
    if a == [] {
      assert a + b == b;
    } else {
      RanBoth(f, a[1..], b);
      assert (a + b)[0] == a[0] && (a + b)[1..] == a[1..] + b;
    }
  }

  lemma {:induction false} BuildRan(f: Factories, flags: Flags, key: string)
    ensures Build(f, flags, key).error.None? ==> RanThrough(f, Build(f, flags, key).trees)
    decreases Unmarked(f, flags), 0
  {
    hide Build, RunScript, Unmarked;
    BuildStep(f, flags, key);
    if key in f && key !in flags.created && key !in flags.creating {
      BeginShrinks(f, flags, key);
      var r := RunScript(f, Begin(flags, key), key, 0, [], []);
      ScriptRan(f, Begin(flags, key), key, 0, [], []);
      assert [] + InOrder(f[key].script, key, 0) == InOrder(f[key].script, key, 0);
      var t := Node(key, r.error.None?, r.adds, r.children);
      assert [t][1..] == [];
    }
  }

  lemma {:induction false} ScriptRan(f: Factories, flags: Flags, key: string, i: nat, adds: seq<Item>, children: seq<Tree>)
    requires key in f && i <= |f[key].script| && RanThrough(f, children)
    ensures var r := RunScript(f, flags, key, i, adds, children);
            r.error.None? ==> RanThrough(f, r.children) && r.adds == adds + InOrder(f[key].script, key, i)
    decreases Unmarked(f, flags), 1 + |f[key].script| - i
  {
    hide Build, RunScript, Unmarked, RanThrough;
    RunStep(f, flags, key, i, adds, children);
    if i == |f[key].script| {
      assert adds + [] == adds;
    } else {
      var rest := InOrder(f[key].script, key, i + 1);
      match f[key].script[i]
      case Add(present) =>
        ScriptRan(f, flags, key, i + 1, if present then adds + [Added(key, i)] else adds, children);
        assert [] + rest == rest && (adds + [Added(key, i)]) + rest == adds + ([Added(key, i)] + rest);
      case Read(dep) =>
        var b := Build(f, flags, dep);
        GrowsShrinks(f, flags, b.flags);
        BuildRan(f, flags, dep);
        assert [] + rest == rest;
        if b.error.None? {
          RanBoth(f, children, b.trees);
          ScriptRan(f, b.flags, key, i + 1, adds, children + b.trees);
        }
    }
  }

  lemma {:induction false} KeysKnown(f: Factories, ts: seq<Tree>)
    requires RanThrough(f, ts)
    ensures forall k :: k in KeysOf(ts) ==> k in f
  {
    if ts != [] {
      KeysKnown(f, ts[0].children);
      KeysKnown(f, ts[1..]);
    }
  }

  lemma {:induction false} ItemsAppend(f: Factories, a: seq<string>, b: seq<string>)
    requires (forall k :: k in a ==> k in f) && forall k :: k in b ==> k in f
    ensures AllItems(f, a + b) == AllItems(f, a) + AllItems(f, b)
  {
    hide ItemsOf;
    if a == [] {
      assert a + b == b;
    } else {
      ItemsAppend(f, a[1..], b);
      assert (a + b)[0] == a[0] && (a + b)[1..] == a[1..] + b;
    }
  }

  lemma {:induction false} PreordersAre(f: Factories, ts: seq<Tree>)
    requires RanThrough(f, ts)
    ensures (forall k :: k in KeysOf(ts) ==> k in f) && Preorders(f, ts) == AllItems(f, KeysOf(ts))
    decreases ts
  {
    hide ItemsOf, LastFirst, Newest, InOrder;
    KeysKnown(f, ts);
    if ts != [] {
      var t, rest := ts[0], ts[1..];
      PreordersAre(f, t.children);
      PreordersAre(f, rest);
      OwnIs(f, t);
      var own := [t.key];
      assert own[1..] == [];
      assert AllItems(f, own) == ItemsOf(f, t.key) + AllItems(f, []);
      ItemsAppend(f, own, KeysOf(t.children));
      ItemsAppend(f, own + KeysOf(t.children), KeysOf(rest));
    }
  }

  lemma OwnIs(f: Factories, t: Tree)
    requires t.complete && t.key in f && t.adds == InOrder(f[t.key].script, t.key, 0)
    ensures Own(f, t) == ItemsOf(f, t.key)
  {
    NewestIsLastFirst(f[t.key].script, t.key, 0);
  }

  /** A read that succeeds leaves this to dispose, in this order: for every factory that ran, in the order in which they began, its
      value if that is the container's to dispose, and all it registered, the last first. */
  lemma AllDisposed(f: Factories, flags: Flags, key: string)
    requires Build(f, flags, key).error.None?
    ensures (forall k :: k in Begun(Starts(f, flags, key)) ==> k in f)
    ensures Preorders(f, Build(f, flags, key).trees) == AllItems(f, Begun(Starts(f, flags, key)))
  {
    hide Build, Starts, RanThrough;
    BuildRan(f, flags, key);
    PreordersAre(f, Build(f, flags, key).trees);
    BegunAre(f, flags, key);
  }
}
