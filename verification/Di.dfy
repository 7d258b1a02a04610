/**
 The dependency container: dependencies are built on first read by their factories, which read
 further dependencies and register things to dispose.
 */
module Di {
  import opened Wrappers

  /** What a factory does while it runs: it reads a dependency, or registers an item (or nothing). */
  datatype Action = Read(key: string) | Add(present: bool)

  /** `disposable` tells whether the value can be disposed, `external` whether someone else owns it. */
  datatype Factory = Factory(script: seq<Action>, disposable: bool, external: bool)

  type Factories = map<string, Factory>

  /** Things to dispose: the value of a key, or what its factory registered with its `i`-th action. */
  datatype Item = Value(key: string) | Added(key: string, i: nat)

  // ------------------------------------------------------------------ what a read builds

  /** A factory call: complete or broken off by an error, with what it registered and the calls it caused, in order. */
  datatype Tree = Node(key: string, complete: bool, adds: seq<Item>, children: seq<Tree>)

  /** Which keys have a value, and which are under construction. */
  datatype Flags = Flags(created: set<string>, creating: set<string>)

  /** `error` names the key that was found under construction; `finished` lists the keys completed, in order. */
  datatype Built = Built(error: Option<string>, flags: Flags, finished: seq<string>, trees: seq<Tree>)

  /** A factory call under way: what it has registered and the calls it has caused. */
  datatype Ran = Ran(error: Option<string>, flags: Flags, finished: seq<string>, adds: seq<Item>, children: seq<Tree>)

  function Unmarked(f: Factories, flags: Flags): nat
  {
    |f.Keys - flags.created - flags.creating|
  }

  ghost predicate Grows(a: Flags, b: Flags)
  {
    a.created <= b.created && a.created + a.creating <= b.created + b.creating
  }

  lemma GrowsShrinks(f: Factories, a: Flags, b: Flags)
    requires Grows(a, b)
    ensures Unmarked(f, b) <= Unmarked(f, a)
  {
    Subset(f.Keys - b.created - b.creating, f.Keys - a.created - a.creating);
  }

  lemma {:induction false} Subset<T>(a: set<T>, b: set<T>)
    requires a <= b
    ensures |a| <= |b|
  {
    if a != {} {
      var x :| x in a;
      Subset(a - {x}, b - {x});
    }
  }

  function Begin(flags: Flags, key: string): Flags
  {
    flags.(creating := flags.creating + {key})
  }

  function End(flags: Flags, key: string): Flags
  {
    Flags(flags.created + {key}, flags.creating - {key})
  }

  lemma BeginShrinks(f: Factories, flags: Flags, key: string)
    requires key in f && key !in flags.created && key !in flags.creating
    ensures Unmarked(f, Begin(flags, key)) < Unmarked(f, flags)
  {
    var a := f.Keys - flags.created - flags.creating;
    assert f.Keys - flags.created - (flags.creating + {key}) == a - {key};
  }

  /** The effect of reading `key`. */
  function Build(f: Factories, flags: Flags, key: string): (r: Built)
    ensures Grows(flags, r.flags)
    decreases Unmarked(f, flags), 0
  {
    if key !in f || key in flags.created then Built(None, flags, [], [])
    else if key in flags.creating then Built(Some(key), flags, [], [])
    else
      BeginShrinks(f, flags, key);
      var r := RunScript(f, Begin(flags, key), key, 0, [], []);
      if r.error.Some? then Built(r.error, r.flags, r.finished, [Node(key, false, r.adds, r.children)])
      else Built(None, End(r.flags, key), r.finished + [key], [Node(key, true, r.adds, r.children)])
  }

  /** The factory of `key` from its `i`-th action on. */
  function RunScript(f: Factories, flags: Flags, key: string, i: nat, adds: seq<Item>, children: seq<Tree>): (r: Ran)
    requires key in f && i <= |f[key].script|
    ensures Grows(flags, r.flags)
    decreases Unmarked(f, flags), 1 + |f[key].script| - i
  {
    if i == |f[key].script| then Ran(None, flags, [], adds, children)
    else
      match f[key].script[i]
      case Add(present) => RunScript(f, flags, key, i + 1, if present then adds + [Added(key, i)] else adds, children)
      case Read(dep) =>
        var b := Build(f, flags, dep);
        GrowsShrinks(f, flags, b.flags);
        if b.error.Some? then Ran(b.error, b.flags, b.finished, adds, children + b.trees)
        else
          var r := RunScript(f, b.flags, key, i + 1, adds, children + b.trees);
          r.(finished := b.finished + r.finished)
  }

  // ------------------------------------------------------------------ disposal order

  /** The items of one factory call, last registered first, with its value in front of them. */
  function Own(f: Factories, t: Tree): seq<Item>
  {
    (if t.complete && t.key in f && f[t.key].disposable && !f[t.key].external then [Value(t.key)] else [])
    + Newest(t.adds)
  }

  /** Newest first. */
  function Newest(adds: seq<Item>): seq<Item>
  {
    if adds == [] then [] else Newest(adds[1..]) + [adds[0]]
  }

  /** A call's own items, then those of the calls it caused, in creation order. */
  function Preorder(f: Factories, t: Tree): seq<Item>
    decreases t, 0
  {
    Own(f, t) + Preorders(f, t.children)
  }

  function Preorders(f: Factories, ts: seq<Tree>): seq<Item>
    decreases ts
  {
    if ts == [] then [] else Preorder(f, ts[0]) + Preorders(f, ts[1..])
  }

  lemma {:induction false} PreordersAppend(f: Factories, a: seq<Tree>, b: seq<Tree>)
    ensures Preorders(f, a + b) == Preorders(f, a) + Preorders(f, b)
    decreases |a|
  {
    hide Preorder;
    if a == [] {
      assert a + b == b;
    } else {
      PreordersAppend(f, a[1..], b);
      assert (a + b)[1..] == a[1..] + b;
    }
  }

  lemma {:induction false} NewestSnoc(adds: seq<Item>, x: Item)
    ensures Newest(adds + [x]) == [x] + Newest(adds)
  {
    if adds == [] {
      assert adds + [x] == [x];
      assert [x][1..] == [];
    } else {
      NewestSnoc(adds[1..], x);
      assert (adds + [x])[1..] == adds[1..] + [x];
    }
  }

  // ------------------------------------------------------------------ the container

  datatype Error = Disposed | Cyclic(key: string)

  /** A dependency, or nothing for a key no factory stands behind. */
  datatype Got = Got(value: Option<string>) | Raised(error: Error)

  class Container {
    const factories: Factories
    var disposed: bool
    var created: set<string>
    var creating: set<string>
    var creationCount: nat
    var disposables: seq<Item>
    ghost var forest: seq<Tree>

    ghost predicate Valid()
      reads this
    {
      && creationCount == |creating| && created !! creating
      && (!disposed ==> disposables == Preorders(factories, forest))
      && Fresh({}, View(), forest)
    }

    function View(): Flags
      reads this
    {
      Flags(created, creating)
    }

    constructor (factories: Factories)
      ensures Valid() && !disposed && View() == Flags({}, {}) && this.factories == factories && forest == []
    {
      this.factories := factories;
      disposed := false;
      created, creating, creationCount := {}, {}, 0;
      disposables, forest := [], [];
    }

    /** Reading all keys at once is refused while anything is under construction. */
    method Enumerate() returns (ok: bool)
      requires Valid()
      ensures ok <==> creating == {}
    {
      ok := creationCount == 0;
    }

    /** Reads a dependency from outside. */
    method Get(key: string) returns (r: Got)
      requires Valid()
      modifies this
      ensures Valid() && disposed == old(disposed)
      ensures old(disposed) ==> r == (if key in factories then Raised(Disposed) else Got(None))
                                && forest == old(forest) && View() == old(View())
      ensures !old(disposed) ==>
                var b := Build(factories, old(View()), key);
                && View() == b.flags && forest == old(forest) + b.trees
                && r == match b.error case Some(k) => Raised(Cyclic(k))
                                      case None => Got(if key in factories then Some(key) else None)
    {
      hide Preorders, Build, Fresh;
      CreatingKept(factories, View(), key);
      r := Lookup(key);
      if !disposed {
        ghost var b := Build(factories, old(View()), key);
        PreordersAppend(factories, forest, b.trees);
        BuildFresh(factories, old(View()), key);
        FreshAppend({}, old(View()), forest, b.flags, b.trees);
        forest := forest + b.trees;
      }
    }

    /** Disposes everything, in list order; `order` is that order. */
    method Dispose() returns (order: Option<seq<Item>>)
      requires Valid()
      modifies this
      ensures Valid() && disposed && forest == old(forest) && View() == old(View())
      ensures order == if old(disposed) then None else Some(Preorders(factories, forest))
    {
      hide Preorders, Fresh;
      if disposed { return None; }
      var log: seq<Item> := [];
      for i := 0 to |disposables|
        invariant log == disposables[..i]
      {
        log := log + [disposables[i]];
      }
      assert log == disposables;
      disposed := true;
      disposables := [];
      return Some(log);
    }

    /** The getter behind every key, also called by factories. */
    method Lookup(key: string) returns (r: Got)
      requires creationCount == |creating| && created !! creating
      modifies this`created, this`creating, this`creationCount, this`disposables
      ensures creationCount == |creating|
      ensures disposed ==> r == (if key in factories then Raised(Disposed) else Got(None))
                           && View() == old(View()) && disposables == old(disposables)
      ensures !disposed ==>
                var b := Build(factories, old(View()), key);
                && View() == b.flags && disposables == old(disposables) + Preorders(factories, b.trees)
                && r == match b.error case Some(k) => Raised(Cyclic(k))
                                      case None => Got(if key in factories then Some(key) else None)
      decreases Unmarked(factories, View()), 0, 1
    {
      hide Preorders, RunScript, Build;
      EmptyParts(factories, disposables);
      BuildStep(factories, View(), key);
      if key !in factories { return Got(None); }
      if disposed { return Raised(Disposed); }
      if key !in created {
        if key in creating { return Raised(Cyclic(key)); }
        var error := Create(key);
        if error.Some? { return Raised(error.value); }
      }
      r := Got(Some(key));
    }

    method Create(key: string) returns (failure: Option<Error>)
      requires key in factories && !disposed && key !in created && key !in creating
      requires creationCount == |creating| && created !! creating
      modifies this`created, this`creating, this`creationCount, this`disposables
      ensures creationCount == |creating|
      ensures var b := Build(factories, old(View()), key);
              && View() == b.flags && disposables == old(disposables) + Preorders(factories, b.trees)
              && failure == (match b.error case None => None case Some(k) => Some(Cyclic(k)))
      decreases Unmarked(factories, View()), 0, 0
    {
      hide Own, Preorders, Newest, RunScript, Build, Preorder, Unmarked;
      BuildStep(factories, View(), key);
      creationCount := creationCount + 1;
      creating := creating + {key};
      BeginShrinks(factories, old(View()), key);
      assert View() == Begin(old(View()), key);
      ghost var run := RunScript(factories, View(), key, 0, [], []);
      var index := |disposables|;
      ghost var before := disposables;
      failure := CallFactory(key, index);
      ghost var during := View();
      assert during == run.flags;
      ghost var behind := Newest(run.adds) + Preorders(factories, run.children);
      NodeItems(factories, Node(key, failure.None?, run.adds, run.children));
      assert [] + behind == behind;
      if failure.Some? { return; }
      if factories[key].disposable && !factories[key].external {
        SpliceAt(before, behind, Value(key));
        disposables := Splice(disposables, index, Value(key));
      }
      Without(creating, key);
      creating := creating - {key};
      created := created + {key};
      creationCount := creationCount - 1;
      assert View() == End(during, key);
    }

    /** Runs the factory of `key`; what it registers goes to `index`, in front of everything behind it. */
    method CallFactory(key: string, index: nat) returns (failure: Option<Error>)
      requires key in factories && !disposed && index == |disposables| && key in creating
      requires creationCount == |creating| && created !! creating
      modifies this`created, this`creating, this`creationCount, this`disposables
      ensures creationCount == |creating|
      ensures var r := RunScript(factories, old(View()), key, 0, [], []);
              && View() == r.flags
              && disposables == old(disposables) + (Newest(r.adds) + Preorders(factories, r.children))
              && failure == (match r.error case None => None case Some(k) => Some(Cyclic(k)))
              && (failure.None? ==> key in creating)
      decreases Unmarked(factories, View()), 2 + |factories[key].script|
    {
      hide Preorders, Newest, RunScript, Build, Unmarked;
      ghost var start := View();
      ghost var before := disposables;
      ghost var fin: seq<string>, adds: seq<Item>, children: seq<Tree> := [], [], [];
      EmptyParts(factories, before);
      var script := factories[key].script;
      for i := 0 to |script|
        invariant creationCount == |creating| && created !! creating && key in creating
        invariant Grows(start, View())
        invariant disposables == before + (Newest(adds) + Preorders(factories, children))
        invariant RunScript(factories, start, key, 0, [], [])
               == Late(fin, RunScript(factories, View(), key, i, adds, children))
      {
        RunStep(factories, View(), key, i, adds, children);
        match script[i]
        case Add(present) =>
          if present {
            NewestSnoc(adds, Added(key, i));
            SpliceAt(before, Newest(adds) + Preorders(factories, children), Added(key, i));
            Regroup([Added(key, i)], Newest(adds), Preorders(factories, children));
            disposables := Splice(disposables, index, Added(key, i));
            adds := adds + [Added(key, i)];
          }
        case Read(dep) =>
          GrowsShrinks(factories, start, View());
          ghost var b := Build(factories, View(), dep);
          CreatingKept(factories, View(), dep);
          PreordersAppend(factories, children, b.trees);
          Regroup(Newest(adds), Preorders(factories, children), Preorders(factories, b.trees));
          Regroup(before, Newest(adds) + Preorders(factories, children), Preorders(factories, b.trees));
          var got := Lookup(dep);
          children := children + b.trees;
          if got.Raised? {
            return Some(got.error);
          }
          LateTwice(fin, b.finished, RunScript(factories, View(), key, i + 1, adds, children));
          fin := fin + b.finished;
      }
      RunStep(factories, View(), key, |script|, adds, children);
      return None;
    }
  }

  /** The same run with keys completed before it. */
  function Late(fin: seq<string>, r: Ran): Ran
  {
    r.(finished := fin + r.finished)
  }

  lemma LateTwice(a: seq<string>, b: seq<string>, r: Ran)
    ensures Late(a, Late(b, r)) == Late(a + b, r)
  {
  }

  lemma Regroup<T>(a: seq<T>, b: seq<T>, c: seq<T>)
    ensures a + (b + c) == (a + b) + c
  {
  }

  lemma SpliceAt<T>(before: seq<T>, behind: seq<T>, x: T)
    ensures Splice(before + behind, |before|, x) == before + ([x] + behind)
  {
  }

  /** One read. */
  lemma BuildStep(f: Factories, flags: Flags, key: string)
    ensures var b := Build(f, flags, key);
            if key !in f || key in flags.created then b == Built(None, flags, [], [])
            else if key in flags.creating then b == Built(Some(key), flags, [], [])
            else
              var r := RunScript(f, Begin(flags, key), key, 0, [], []);
              && b.error == r.error
              && b.trees == [Node(key, r.error.None?, r.adds, r.children)]
              && b.flags == (if r.error.Some? then r.flags else End(r.flags, key))
              && b.finished == (if r.error.Some? then r.finished else r.finished + [key])
  {
    hide RunScript;
  }

  /** One action of a factory. */
  lemma RunStep(f: Factories, flags: Flags, key: string, i: nat, adds: seq<Item>, children: seq<Tree>)
    requires key in f && i <= |f[key].script|
    ensures var r := RunScript(f, flags, key, i, adds, children);
            if i == |f[key].script| then r == Ran(None, flags, [], adds, children)
            else match f[key].script[i]
              case Add(present) => r == RunScript(f, flags, key, i + 1, if present then adds + [Added(key, i)] else adds, children)
              case Read(dep) =>
                var b := Build(f, flags, dep);
                if b.error.Some? then r == Ran(b.error, b.flags, b.finished, adds, children + b.trees)
                else r == Late(b.finished, RunScript(f, b.flags, key, i + 1, adds, children + b.trees))
  {
    hide Build;
  }

  /** The items of one call are its own and those behind them. */
  lemma NodeItems(f: Factories, t: Tree)
    requires t.key in f
    ensures Preorders(f, [t]) == (if t.complete && f[t.key].disposable && !f[t.key].external then [Value(t.key)] else [])
                                 + (Newest(t.adds) + Preorders(f, t.children))
  {
    assert [t][1..] == [];
    assert Preorder(f, t) + [] == Preorder(f, t);
  }

  lemma Without<T>(s: set<T>, x: T)
    requires x in s
    ensures |s - {x}| == |s| - 1
  {
  }

  lemma EmptyParts(f: Factories, before: seq<Item>)
    ensures Newest([]) == [] && Preorders(f, []) == [] && before == before + ([] + [])
  {
  }

  /** Without an error nothing is left under construction that was not so before. */
  lemma {:induction false} CreatingKept(f: Factories, flags: Flags, key: string)
    requires flags.created !! flags.creating
    ensures Build(f, flags, key).flags.created !! Build(f, flags, key).flags.creating
    ensures Build(f, flags, key).error.None? ==> Build(f, flags, key).flags.creating == flags.creating
    decreases Unmarked(f, flags), 0
  {
    if key in f && key !in flags.created && key !in flags.creating {
      BeginShrinks(f, flags, key);
      RunKept(f, Begin(flags, key), key, 0, [], []);
    }
  }

  lemma {:induction false} RunKept(f: Factories, flags: Flags, key: string, i: nat, adds: seq<Item>, children: seq<Tree>)
    requires key in f && i <= |f[key].script| && flags.created !! flags.creating
    ensures var r := RunScript(f, flags, key, i, adds, children);
            r.flags.created !! r.flags.creating && (r.error.None? ==> r.flags.creating == flags.creating)
    decreases Unmarked(f, flags), 1 + |f[key].script| - i
  {
    if i < |f[key].script| {
      match f[key].script[i]
      case Add(present) => RunKept(f, flags, key, i + 1, if present then adds + [Added(key, i)] else adds, children);
      case Read(dep) =>
        CreatingKept(f, flags, dep);
        var b := Build(f, flags, dep);
        GrowsShrinks(f, flags, b.flags);
        if b.error.None? { RunKept(f, b.flags, key, i + 1, adds, children + b.trees); }
    }
  }

  /** The list with `x` put in at `i`. */
  function Splice<T>(s: seq<T>, i: nat, x: T): seq<T>
    requires i <= |s|
  {
    s[..i] + [x] + s[i..]
  }

  // ------------------------------------------------------------------ when reading fails

  predicate Reads(f: Factories, a: string, b: string)
  {
    a in f && Read(b) in f[a].script
  }

  /** A chain of reads through keys that have a factory but no value yet. */
  predicate Walk(f: Factories, created: set<string>, p: seq<string>)
  {
    && p != []
    && (forall i :: 0 <= i < |p| ==> p[i] in f && p[i] !in created)
    && (forall i :: 0 < i < |p| ==> Reads(f, p[i - 1], p[i]))
  }

  predicate Distinct(s: seq<string>)
  {
    forall i, j :: 0 <= i < j < |s| ==> s[i] != s[j]
  }

  predicate Clean(creating: set<string>, p: seq<string>)
  {
    Distinct(p) && forall k :: k in p ==> k !in creating
  }

  /** No chain of reads from `key` meets itself or something under construction. */
  ghost predicate Acyclic(f: Factories, flags: Flags, key: string)
  {
    forall p :: Walk(f, flags.created, p) && p[0] == key ==> Clean(flags.creating, p)
  }

  /** Everything the keys of `fin` read was there already or comes earlier. */
  predicate Ordered(f: Factories, base: set<string>, fin: seq<string>)
  {
    forall i, b :: 0 <= i < |fin| && Reads(f, fin[i], b) && b in f ==> b in base || b in fin[..i]
  }

  /** What completing `fin` in order, from `flags` on, amounts to. */
  ghost predicate Completes(f: Factories, flags: Flags, fin: seq<string>, after: Flags)
  {
    && Ordered(f, flags.created, fin) && Distinct(fin)
    && (forall k :: k in fin ==> k in f && k !in flags.created && k !in flags.creating)
    && (forall k :: k in after.created <==> k in flags.created || k in fin)
    && after.creating == flags.creating
  }

  lemma DistinctBoth(a: seq<string>, b: seq<string>)
    requires Distinct(a) && Distinct(b) && forall k :: k in b ==> k !in a
    ensures Distinct(a + b)
  {
    var s := a + b;
    forall i, j | 0 <= i < j < |s| ensures s[i] != s[j]
    {
      if i < |a| <= j {
        assert s[j] in b && s[i] in a;
      } else if |a| <= i {
        assert s[i] == b[i - |a|] && s[j] == b[j - |a|];
      }
    }
  }

  lemma CompletesNothing(f: Factories, flags: Flags)
    ensures Completes(f, flags, [], flags)
  {
  }

  lemma CompletesBoth(f: Factories, a: Flags, x: seq<string>, b: Flags, y: seq<string>, c: Flags)
    requires Completes(f, a, x, b) && Completes(f, b, y, c)
    ensures Completes(f, a, x + y, c)
  {
    var z := x + y;
    DistinctBoth(x, y);
    forall i, d | 0 <= i < |z| && Reads(f, z[i], d) && d in f ensures d in a.created || d in z[..i]
    {
      if i < |x| {
        assert z[..i] == x[..i];
      } else {
        assert z[..i] == x + y[..i - |x|];
        assert z[i] == y[i - |x|];
      }
    }
  }

  lemma CompletesOne(f: Factories, flags: Flags, key: string, fin: seq<string>, after: Flags)
    requires key in f && key !in flags.created && key !in flags.creating
    requires Completes(f, Begin(flags, key), fin, after)
    requires forall b :: Reads(f, key, b) && b in f ==> b in after.created
    ensures Completes(f, flags, fin + [key], End(after, key))
  {
    var z := fin + [key];
    assert key !in fin;
    DistinctBoth(fin, [key]);
    forall i, d | 0 <= i < |z| && Reads(f, z[i], d) && d in f ensures d in flags.created || d in z[..i]
    {
      assert z[..i] == fin[..i];
      if i == |fin| { assert fin[..i] == fin; }
    }
    assert End(after, key).creating == flags.creating;
    assert forall k :: k in z <==> k in fin || k == key;
  }

  lemma {:induction false} BuildCompletes(f: Factories, flags: Flags, key: string)
    requires flags.created !! flags.creating && Build(f, flags, key).error.None?
    ensures var b := Build(f, flags, key);
            Completes(f, flags, b.finished, b.flags) && (key in f ==> key in b.flags.created)
    decreases Unmarked(f, flags), 0
  {
    hide Completes, RunScript, Build, Unmarked;
    BuildStep(f, flags, key);
    CompletesNothing(f, flags);
    if key in f && key !in flags.created {
      BeginShrinks(f, flags, key);
      var r := RunScript(f, Begin(flags, key), key, 0, [], []);
      RunCompletes(f, Begin(flags, key), key, 0, [], []);
      forall b | Reads(f, key, b) && b in f ensures b in r.flags.created
      {
        var i :| 0 <= i < |f[key].script| && f[key].script[i] == Read(b);
      }
      CompletesOne(f, flags, key, r.finished, r.flags);
    }
  }

  lemma {:induction false} RunCompletes(f: Factories, flags: Flags, key: string, i: nat, adds: seq<Item>, children: seq<Tree>)
    requires key in f && i <= |f[key].script| && flags.created !! flags.creating
    requires RunScript(f, flags, key, i, adds, children).error.None?
    ensures var r := RunScript(f, flags, key, i, adds, children);
            && Completes(f, flags, r.finished, r.flags) && flags.created <= r.flags.created
            && forall j :: i <= j < |f[key].script| && f[key].script[j].Read? && f[key].script[j].key in f
                 ==> f[key].script[j].key in r.flags.created
    decreases Unmarked(f, flags), 1 + |f[key].script| - i
  {
    hide Completes, RunScript, Build, Unmarked;
    RunStep(f, flags, key, i, adds, children);
    CompletesNothing(f, flags);
    if i < |f[key].script| {
      match f[key].script[i]
      case Add(present) => RunCompletes(f, flags, key, i + 1, if present then adds + [Added(key, i)] else adds, children);
      case Read(dep) =>
        var b := Build(f, flags, dep);
        BuildCompletes(f, flags, dep);
        CreatingKept(f, flags, dep);
        GrowsShrinks(f, flags, b.flags);
        RunCompletes(f, b.flags, key, i + 1, adds, children + b.trees);
        var r := RunScript(f, b.flags, key, i + 1, adds, children + b.trees);
        CompletesBoth(f, flags, b.finished, b.flags, r.finished, r.flags);
    }
  }

  /** A chain of reads from a completed key goes strictly back in the order of completion. */
  lemma {:induction false} WalkDescends(f: Factories, base: set<string>, fin: seq<string>, p: seq<string>, q: nat)
    requires Ordered(f, base, fin) && Distinct(fin) && Walk(f, base, p) && q < |fin| && fin[q] == p[0]
    ensures Distinct(p) && forall i :: 0 < i < |p| ==> p[i] in fin[..q]
    decreases |p|
  {
    if |p| > 1 {
      assert Reads(f, p[1 - 1], p[1]);
      var r :| 0 <= r < q && fin[..q][r] == p[1];
      var rest := p[1..];
      assert forall i :: 0 < i < |rest| ==> Reads(f, rest[i - 1], rest[i]) by {
        forall i | 0 < i < |rest| ensures Reads(f, rest[i - 1], rest[i])
        {
          assert Reads(f, p[i + 1 - 1], p[i + 1]);
        }
      }
      WalkDescends(f, base, fin, rest, r);
      forall i | 0 < i < |p| ensures p[i] in fin[..q] && p[i] != p[0]
      {
        if i > 1 {
          assert p[i] == rest[i - 1];
          var k :| 0 <= k < r && fin[..r][k] == p[i];
          assert fin[..q][k] == p[i];
        }
      }
      assert forall i :: 0 < i < |p| ==> p[i] == rest[i - 1];
    }
  }

  lemma SuccessIsAcyclic(f: Factories, flags: Flags, key: string)
    requires flags.created !! flags.creating && Build(f, flags, key).error.None?
    ensures Acyclic(f, flags, key)
  {
    hide Build;
    BuildCompletes(f, flags, key);
    var fin := Build(f, flags, key).finished;
    forall p | Walk(f, flags.created, p) && p[0] == key ensures Clean(flags.creating, p)
    {
      var q :| 0 <= q < |fin| && fin[q] == key;
      WalkDescends(f, flags.created, fin, p, q);
      forall k | k in p ensures k !in flags.creating
      {
        var i :| 0 <= i < |p| && p[i] == k;
        if i > 0 { assert k in fin[..q]; }
        assert k in fin;
      }
    }
  }

  /** The keys under construction are those from before and a chain of reads that `key` continues. */
  ghost predicate Stacked(f: Factories, avoid: set<string>, busy: set<string>, flags: Flags, stack: seq<string>)
  {
    && (forall k :: k in flags.creating <==> k in busy || k in stack)
    && avoid <= flags.created && flags.created !! flags.creating
    && (stack == [] || Walk(f, avoid, stack))
  }

  ghost predicate DeadEnd(f: Factories, avoid: set<string>, busy: set<string>, start: string)
  {
    exists p :: Walk(f, avoid, p) && p[0] == start && !Clean(busy, p)
  }

  lemma Extend(f: Factories, avoid: set<string>, stack: seq<string>, key: string)
    requires stack == [] || (Walk(f, avoid, stack) && Reads(f, stack[|stack| - 1], key))
    requires key in f && key !in avoid
    ensures Walk(f, avoid, stack + [key])
  {
    var p := stack + [key];
    forall i | 0 < i < |p| ensures Reads(f, p[i - 1], p[i])
    {
      if i < |stack| { assert Reads(f, stack[i - 1], stack[i]); }
    }
  }

  lemma {:induction false} FailureIsDeadEnd(f: Factories, avoid: set<string>, busy: set<string>, flags: Flags,
                                            stack: seq<string>, key: string)
    requires Stacked(f, avoid, busy, flags, stack)
    requires stack != [] ==> Reads(f, stack[|stack| - 1], key)
    requires Build(f, flags, key).error.Some?
    ensures DeadEnd(f, avoid, busy, (stack + [key])[0])
    decreases Unmarked(f, flags), 0
  {
    hide Build, RunScript, Unmarked, Walk, Reads;
    BuildStep(f, flags, key);
    var p := stack + [key];
    Extend(f, avoid, stack, key);
    if key in flags.creating {
      if key in stack {
        var i :| 0 <= i < |stack| && stack[i] == key;
        assert p[i] == p[|stack|];
      } else {
        assert p[|stack|] in p;
      }
      assert !Clean(busy, p);
    } else {
      BeginShrinks(f, flags, key);
      RunFails(f, avoid, busy, Begin(flags, key), p, key, 0, [], []);
    }
  }

  lemma {:induction false} RunFails(f: Factories, avoid: set<string>, busy: set<string>, flags: Flags, stack: seq<string>,
                                    key: string, i: nat, adds: seq<Item>, children: seq<Tree>)
    requires key in f && i <= |f[key].script| && stack != [] && stack[|stack| - 1] == key
    requires Stacked(f, avoid, busy, flags, stack)
    requires RunScript(f, flags, key, i, adds, children).error.Some?
    ensures DeadEnd(f, avoid, busy, stack[0])
    decreases Unmarked(f, flags), 1 + |f[key].script| - i
  {
    hide Build, RunScript, Unmarked, Walk, DeadEnd;
    RunStep(f, flags, key, i, adds, children);
    if i < |f[key].script| {
      match f[key].script[i]
      case Add(present) =>
        RunFails(f, avoid, busy, flags, stack, key, i + 1, if present then adds + [Added(key, i)] else adds, children);
      case Read(dep) =>
        var b := Build(f, flags, dep);
        assert Reads(f, key, dep);
        if b.error.Some? {
          FailureIsDeadEnd(f, avoid, busy, flags, stack, dep);
        } else {
          CreatingKept(f, flags, dep);
          GrowsShrinks(f, flags, b.flags);
          RunFails(f, avoid, busy, b.flags, stack, key, i + 1, adds, children + b.trees);
        }
    }
  }

  /** In any state a container can be in: a read succeeds if and only if no chain of reads from the key, through
      keys without a value, meets itself or a key left under construction. With nothing half-built that is: the
      cyclic error is raised exactly when a cycle can be reached. */
  lemma ReadSucceedsIff(f: Factories, flags: Flags, key: string)
    requires flags.created !! flags.creating
    ensures Build(f, flags, key).error.None? <==> Acyclic(f, flags, key)
  {
    hide Build, Walk, Clean;
    if Build(f, flags, key).error.None? {
      SuccessIsAcyclic(f, flags, key);
    } else {
      FailureIsDeadEnd(f, flags.created, flags.creating, flags, [], key);
      assert ([] + [key])[0] == key;
    }
  }

  // ------------------------------------------------------------------ each factory at most once

  /** The keys of all calls. */
  function KeysOf(ts: seq<Tree>): seq<string>
  {
    if ts == [] then [] else [ts[0].key] + KeysOf(ts[0].children) + KeysOf(ts[1..])
  }

  /** Registered items carry the key of their call. */
  predicate AddsOwn(ts: seq<Tree>)
  {
    ts != [] ==> OwnAdds(ts[0].key, ts[0].adds) && AddsOwn(ts[0].children) && AddsOwn(ts[1..])
  }

  /** Added by that call, each by a later action than the one before. */
  predicate OwnAdds(key: string, adds: seq<Item>)
  {
    && (forall x :: x in adds ==> x.Added? && x.key == key)
    && (forall i, j :: 0 <= i < j < |adds| ==> adds[i].Added? && adds[j].Added? && adds[i].i < adds[j].i)
  }

  /** The calls `ts` brought the marked keys from `base` to those of `flags`, one call for each. */
  ghost predicate Fresh(base: set<string>, flags: Flags, ts: seq<Tree>)
  {
    && Distinct(KeysOf(ts)) && AddsOwn(ts)
    && (forall k :: k in KeysOf(ts) ==> k !in base)
    && (forall k :: k in flags.created + flags.creating <==> k in base || k in KeysOf(ts))
  }

  lemma {:induction false} KeysAppend(a: seq<Tree>, b: seq<Tree>)
    ensures KeysOf(a + b) == KeysOf(a) + KeysOf(b)
    ensures AddsOwn(a + b) <==> AddsOwn(a) && AddsOwn(b)
  {
    hide OwnAdds;
    if a == [] {
      assert a + b == b;
    } else {
      KeysAppend(a[1..], b);
      assert (a + b)[1..] == a[1..] + b;
      Regroup([a[0].key] + KeysOf(a[0].children), KeysOf(a[1..]), KeysOf(b));
    }
  }

  lemma FreshAppend(base: set<string>, f1: Flags, a: seq<Tree>, f2: Flags, b: seq<Tree>)
    requires Fresh(base, f1, a) && Fresh(f1.created + f1.creating, f2, b)
    ensures Fresh(base, f2, a + b)
  {
    hide KeysOf, AddsOwn, Distinct;
    KeysAppend(a, b);
    DistinctBoth(KeysOf(a), KeysOf(b));
  }

  lemma FreshNone(flags: Flags)
    ensures Fresh(flags.created + flags.creating, flags, [])
  {
  }

  lemma FreshNode(flags: Flags, key: string, complete: bool, adds: seq<Item>, children: seq<Tree>, after: Flags, last: Flags)
    requires key !in flags.created && key !in flags.creating && OwnAdds(key, adds)
    requires Fresh(flags.created + Begin(flags, key).creating, after, children)
    requires last.created + last.creating == after.created + after.creating
    ensures Fresh(flags.created + flags.creating, last, [Node(key, complete, adds, children)])
  {
    hide OwnAdds;
    var t := Node(key, complete, adds, children);
    assert [t][1..] == [];
    assert KeysOf([t]) == [key] + KeysOf(children) + KeysOf([]);
    assert KeysOf([t]) == [key] + KeysOf(children);
    assert forall k :: k in KeysOf([t]) <==> k == key || k in KeysOf(children);
    assert AddsOwn([t]);
    forall k ensures k in last.created + last.creating <==> k in flags.created + flags.creating || k in KeysOf([t])
    {
      assert k in last.created + last.creating <==> k in after.created + after.creating;
      assert k in flags.created + Begin(flags, key).creating <==> k == key || k in flags.created + flags.creating;
    }
    assert key !in KeysOf(children) by { assert key in flags.created + Begin(flags, key).creating; }
    DistinctBoth([key], KeysOf(children));
  }

  lemma {:induction false} BuildFresh(f: Factories, flags: Flags, key: string)
    requires flags.created !! flags.creating
    ensures Fresh(flags.created + flags.creating, Build(f, flags, key).flags, Build(f, flags, key).trees)
    decreases Unmarked(f, flags), 0
  {
    hide Fresh, Build, RunScript, Unmarked;
    BuildStep(f, flags, key);
    FreshNone(flags);
    if key in f && key !in flags.created && key !in flags.creating {
      BeginShrinks(f, flags, key);
      var r := RunScript(f, Begin(flags, key), key, 0, [], []);
      FreshNone(Begin(flags, key));
      RunFresh(f, flags.created + Begin(flags, key).creating, Begin(flags, key), key, 0, [], []);
      RunKept(f, Begin(flags, key), key, 0, [], []);
      FreshNode(flags, key, r.error.None?, r.adds, r.children, r.flags, if r.error.Some? then r.flags else End(r.flags, key));
    }
  }

  lemma {:induction false} RunFresh(f: Factories, base: set<string>, flags: Flags, key: string, i: nat,
                                    adds: seq<Item>, children: seq<Tree>)
    requires key in f && i <= |f[key].script| && flags.created !! flags.creating
    requires Fresh(base, flags, children) && OwnAdds(key, adds) && forall x :: x in adds ==> x.Added? && x.i < i
    ensures var r := RunScript(f, flags, key, i, adds, children);
            Fresh(base, r.flags, r.children) && OwnAdds(key, r.adds)
    decreases Unmarked(f, flags), 1 + |f[key].script| - i
  {
    hide Fresh, Build, RunScript, Unmarked;
    RunStep(f, flags, key, i, adds, children);
    if i < |f[key].script| {
      match f[key].script[i]
      case Add(present) =>
        RunFresh(f, base, flags, key, i + 1, if present then adds + [Added(key, i)] else adds, children);
      case Read(dep) =>
        var b := Build(f, flags, dep);
        BuildFresh(f, flags, dep);
        CreatingKept(f, flags, dep);
        FreshAppend(base, flags, children, b.flags, b.trees);
        GrowsShrinks(f, flags, b.flags);
        if b.error.None? { RunFresh(f, base, b.flags, key, i + 1, adds, children + b.trees); }
    }
  }

  // ------------------------------------------------------------------ the order of disposal

  /** The call of `a` caused that of `b`, directly or through others. */
  predicate Caused(ts: seq<Tree>, a: string, b: string)
  {
    ts != [] && ((ts[0].key == a && b in KeysOf(ts[0].children)) || Caused(ts[0].children, a, b) || Caused(ts[1..], a, b))
  }

  lemma {:induction false} NewestHolds(adds: seq<Item>, x: Item)
    ensures x in Newest(adds) <==> x in adds
  {
    if adds != [] { NewestHolds(adds[1..], x); }
  }

  lemma OwnKeys(f: Factories, t: Tree, x: Item)
    requires OwnAdds(t.key, t.adds) && x in Own(f, t)
    ensures x.key == t.key
  {
    NewestHolds(t.adds, x);
  }

  /** Items belong to calls. */
  lemma {:induction false} ItemKeys(f: Factories, ts: seq<Tree>, x: Item)
    requires AddsOwn(ts) && x in Preorders(f, ts)
    ensures x.key in KeysOf(ts)
  {
    hide Own, OwnAdds;
    if ts != [] {
      var t := ts[0];
      if x in Own(f, t) { OwnKeys(f, t, x); }
      else if x in Preorders(f, t.children) { ItemKeys(f, t.children, x); }
      else { ItemKeys(f, ts[1..], x); }
    }
  }

  lemma {:induction false} CausedKeys(ts: seq<Tree>, a: string, b: string)
    requires Caused(ts, a, b)
    ensures a in KeysOf(ts) && b in KeysOf(ts)
  {
    if Caused(ts[0].children, a, b) { CausedKeys(ts[0].children, a, b); }
    else if Caused(ts[1..], a, b) { CausedKeys(ts[1..], a, b); }
  }

  lemma DistinctParts(a: string, b: seq<string>, c: seq<string>)
    requires Distinct([a] + b + c)
    ensures Distinct(b) && Distinct(c) && a !in b && a !in c && forall k :: k in b ==> k !in c
  {
    var s := [a] + b + c;
    assert s[0] == a;
    assert forall i :: 0 <= i < |b| ==> s[1 + i] == b[i];
    assert forall i :: 0 <= i < |c| ==> s[1 + |b| + i] == c[i];
  }

  /** Whatever a factory call caused to be built is disposed after everything of that call itself. */
  lemma {:induction false} CreatorsFirst(f: Factories, ts: seq<Tree>, i: nat, j: nat)
    requires AddsOwn(ts) && Distinct(KeysOf(ts)) && i < |Preorders(f, ts)| && j < |Preorders(f, ts)|
    requires Caused(ts, Preorders(f, ts)[i].key, Preorders(f, ts)[j].key)
    ensures i < j
  {
    hide Own, OwnAdds, Distinct, Preorders, AddsOwn, KeysOf;
    ForestParts(f, ts);
    var t, rest := ts[0], ts[1..];
    var own, below, behind := Own(f, t), Preorders(f, t.children), Preorders(f, rest);
    var all := Preorders(f, ts);
    var x, y := all[i], all[j];
    DistinctParts(t.key, KeysOf(t.children), KeysOf(rest));
    var n, m := |own|, |own| + |below|;
    Place(f, ts, i);
    Place(f, ts, j);
    if Caused(t.children, x.key, y.key) {
      CausedKeys(t.children, x.key, y.key);
      CreatorsFirst(f, t.children, i - n, j - n);
    } else if Caused(rest, x.key, y.key) {
      CausedKeys(rest, x.key, y.key);
      CreatorsFirst(f, rest, i - m, j - m);
    }
  }

  /** A forest is its first tree, the trees below it and the trees behind it. */
  lemma ForestParts(f: Factories, ts: seq<Tree>)
    requires ts != [] && AddsOwn(ts)
    ensures var t, rest := ts[0], ts[1..];
            && Preorders(f, ts) == Own(f, t) + Preorders(f, t.children) + Preorders(f, rest)
            && KeysOf(ts) == [t.key] + KeysOf(t.children) + KeysOf(rest)
            && OwnAdds(t.key, t.adds) && AddsOwn(t.children) && AddsOwn(rest)
  {
    hide Own, OwnAdds;
  }

  /** Where in the list an item stands tells which call it is from. */
  lemma Place(f: Factories, ts: seq<Tree>, i: nat)
    requires ts != [] && AddsOwn(ts) && i < |Preorders(f, ts)|
    ensures var t, rest := ts[0], ts[1..];
            var n, m := |Own(f, t)|, |Own(f, t)| + |Preorders(f, t.children)|;
            var x := Preorders(f, ts)[i];
            && (i < n ==> x.key == t.key)
            && (n <= i < m ==> x.key in KeysOf(t.children) && x == Preorders(f, t.children)[i - n])
            && (m <= i ==> x.key in KeysOf(rest) && i - m < |Preorders(f, rest)| && x == Preorders(f, rest)[i - m])
  {
    hide Own, Preorders, OwnAdds, AddsOwn, KeysOf;
    ForestParts(f, ts);
    var t, rest := ts[0], ts[1..];
    var own, below, behind := Own(f, t), Preorders(f, t.children), Preorders(f, rest);
    var x := Preorders(f, ts)[i];
    if i < |own| {
      assert x in own;
      OwnKeys(f, t, x);
    } else if i < |own| + |below| {
      assert x in below;
      ItemKeys(f, t.children, x);
    } else {
      assert x in behind;
      ItemKeys(f, rest, x);
    }
  }

  lemma {:induction false} OwnOnce(f: Factories, t: Tree, i: nat, j: nat)
    requires OwnAdds(t.key, t.adds) && i < j < |Own(f, t)|
    ensures Own(f, t)[i] != Own(f, t)[j]
  {
    NewestAt(t.adds);
    var n := |Own(f, t)| - |t.adds|;
    assert forall k :: n <= k < |Own(f, t)| ==> Own(f, t)[k] == Newest(t.adds)[k - n];
  }

  lemma {:induction false} NewestAt(adds: seq<Item>)
    ensures |Newest(adds)| == |adds| && forall k :: 0 <= k < |adds| ==> Newest(adds)[k] == adds[|adds| - 1 - k]
  {
    if adds != [] {
      NewestAt(adds[1..]);
      var r := Newest(adds[1..]);
      forall k | 0 <= k < |adds| ensures Newest(adds)[k] == adds[|adds| - 1 - k]
      {
        if k < |adds| - 1 { assert r[k] == adds[1..][|adds| - 2 - k]; }
      }
    }
  }

  /** No item is disposed twice. */
  lemma {:induction false} EachItemOnce(f: Factories, ts: seq<Tree>, i: nat, j: nat)
    requires AddsOwn(ts) && Distinct(KeysOf(ts)) && i < j < |Preorders(f, ts)|
    ensures Preorders(f, ts)[i] != Preorders(f, ts)[j]
  {
    if ts != [] {
      hide Own, OwnAdds, Distinct, Preorders, AddsOwn, KeysOf;
      ForestParts(f, ts);
      var t, rest := ts[0], ts[1..];
      var own, below, behind := Own(f, t), Preorders(f, t.children), Preorders(f, rest);
      DistinctParts(t.key, KeysOf(t.children), KeysOf(rest));
      var n, m := |own|, |own| + |below|;
      Place(f, ts, i);
      Place(f, ts, j);
      if j < n { OwnOnce(f, t, i, j); }
      else if n <= i && j < m { EachItemOnce(f, t.children, i - n, j - n); }
      else if m <= i { EachItemOnce(f, rest, i - m, j - m); }
    }
  }

  /** Item `i` of the list belongs to key `m` of the forest. */
  predicate ItemOf(f: Factories, ts: seq<Tree>, i: int, m: int)
  {
    0 <= i < |Preorders(f, ts)| && 0 <= m < |KeysOf(ts)| && KeysOf(ts)[m] == Preorders(f, ts)[i].key
  }

  /** An item stands in the part of the list that its key has in the forest. */
  lemma SamePart(f: Factories, ts: seq<Tree>, i: nat, m: nat)
    requires ts != [] && AddsOwn(ts) && Distinct(KeysOf(ts)) && ItemOf(f, ts, i, m)
    ensures var t, rest := ts[0], ts[1..];
            var a, b, below := |Own(f, t)|, |Own(f, t)| + |Preorders(f, t.children)|, |KeysOf(t.children)|;
            && (m == 0 <==> i < a)
            && (0 < m <= below ==> a <= i < b && ItemOf(f, t.children, i - a, m - 1))
            && (below < m ==> b <= i && ItemOf(f, rest, i - b, m - 1 - below))
  {
    hide Own, OwnAdds, Distinct, Preorders, AddsOwn, KeysOf;
    ForestParts(f, ts);
    var t, rest := ts[0], ts[1..];
    DistinctParts(t.key, KeysOf(t.children), KeysOf(rest));
    Place(f, ts, i);
    KeyPlace(t.key, KeysOf(t.children), KeysOf(rest), m);
  }

  lemma ForestBelow(f: Factories, ts: seq<Tree>)
    requires ts != [] && AddsOwn(ts) && Distinct(KeysOf(ts))
    ensures AddsOwn(ts[0].children) && AddsOwn(ts[1..])
    ensures Distinct(KeysOf(ts[0].children)) && Distinct(KeysOf(ts[1..]))
    ensures |KeysOf(ts)| == 1 + |KeysOf(ts[0].children)| + |KeysOf(ts[1..])|
  {
    hide Own, OwnAdds, Distinct, Preorders, AddsOwn, KeysOf;
    ForestParts(f, ts);
    DistinctParts(ts[0].key, KeysOf(ts[0].children), KeysOf(ts[1..]));
  }

  lemma {:induction false} BegunFirst(f: Factories, ts: seq<Tree>, i: nat, j: nat, m: nat, n: nat)
    requires AddsOwn(ts) && Distinct(KeysOf(ts)) && ItemOf(f, ts, i, m) && ItemOf(f, ts, j, n) && m < n
    ensures i < j
    decreases ts
  {
    if ts != [] {
      hide *;
      ForestBelow(f, ts);
      var t, rest := ts[0], ts[1..];
      SamePart(f, ts, i, m);
      SamePart(f, ts, j, n);
      var a, b, below := |Own(f, t)|, |Own(f, t)| + |Preorders(f, t.children)|, |KeysOf(t.children)|;
      if 0 < m && n <= below { BegunFirst(f, t.children, i - a, j - a, m - 1, n - 1); }
      else if below < m { BegunFirst(f, rest, i - b, j - b, m - 1 - below, n - 1 - below); }
    }
  }

  lemma KeyPlace(a: string, b: seq<string>, c: seq<string>, m: nat)
    requires m < |[a] + b + c|
    ensures var k := ([a] + b + c)[m];
            && (m == 0 ==> k == a)
            && (0 < m <= |b| ==> k == b[m - 1] && k in b)
            && (|b| < m ==> k == c[m - 1 - |b|] && k in c)
  {
  }

  /** Of two keys, the one whose factory began first is disposed first, all of its items, whatever reads what. */
  lemma DisposedAsBegun(f: Factories, ts: seq<Tree>, i: nat, j: nat, m: nat, n: nat)
    requires AddsOwn(ts) && Distinct(KeysOf(ts)) && ItemOf(f, ts, i, m) && ItemOf(f, ts, j, n) && m != n
    ensures i < j <==> m < n
  {
    if m < n { BegunFirst(f, ts, i, j, m, n); } else { BegunFirst(f, ts, j, i, n, m); }
  }

  /** The order is that of causes, not of dependencies: a dependency read before its dependent is disposed before it. */
  lemma DependencyMayGoFirst()
    ensures var f := map["a" := Factory([], true, false), "b" := Factory([Read("a")], true, false)];
            var first := Build(f, Flags({}, {}), "a");
            var second := Build(f, first.flags, "b");
            Reads(f, "b", "a") && Preorders(f, first.trees + second.trees) == [Value("a"), Value("b")]
  {
    var f := map["a" := Factory([], true, false), "b" := Factory([Read("a")], true, false)];
    BuildStep(f, Flags({}, {}), "a");
    RunStep(f, Begin(Flags({}, {}), "a"), "a", 0, [], []);
    var g := Flags({"a"}, {});
    assert End(Begin(Flags({}, {}), "a"), "a") == g;
    BuildStep(f, g, "b");
    RunStep(f, Begin(g, "b"), "b", 0, [], []);
    BuildStep(f, Begin(g, "b"), "a");
    RunStep(f, Begin(g, "b"), "b", 1, [], []);
    NodeItems(f, Node("a", true, [], []));
    NodeItems(f, Node("b", true, [], []));
    PreordersAppend(f, [Node("a", true, [], [])], [Node("b", true, [], [])]);
  }
}
